/** What the published bytes say, event by event, and how the decoded executions match what the clients were told. */
module FeedMessages {
  import opened Book
  import opened EngineSpec
  import opened EngineTables
  import opened EngineInvariant
  import opened Itch
  import opened Rebuild
  import opened MarketFeed
  import Bytes
  import B = Builder
  import T = EngineTokens

  // ---------------------------------------------------------------- one event

  /** The decoded message, with the header that every published message has. */
  predicate Says(ev: MarketEvent, locate: nat, m: ItchMessage)
    requires WireSymbol(ev.symbol)
  {
    Decode(ToItch(ev, locate)) == Some(Framed(Header(locate % 0x1_0000, 0, ev.ts % 0x1_0000_0000_0000), m))
  }

  lemma {:induction false} Decoded(ev: MarketEvent, locate: nat)
    requires WireSymbol(ev.symbol)
    ensures Decode(ToItch(ev, locate)) == Some(OnTheWire(Framed(Header(locate, 0, ev.ts), MessageOf(ev.symbol, ev.ev))))
  {
    hide Decode, Encode, OnTheWire;
    RoundTrip(Framed(Header(locate, 0, ev.ts), MessageOf(ev.symbol, ev.ev)));
  }

  /** An execution names the resting order, the shares and the match number, in this order. */
  lemma {:induction false} ExecutionSays(ev: MarketEvent, locate: nat)
    requires WireSymbol(ev.symbol) && ev.ev.Executed? && ev.ev.restingId < TWO64 && ev.ev.qty < TWO32
    ensures Says(ev, locate, OrderExecuted(ev.ev.restingId, ev.ev.qty, ev.ev.matchId % TWO64))
    ensures ev.ev.matchId < TWO64 ==> Says(ev, locate, OrderExecuted(ev.ev.restingId, ev.ev.qty, ev.ev.matchId))
  {
    hide Decode, ToItch;
    Decoded(ev, locate);
  }

  /** An order that comes to rest is announced with its reference, side, shares, symbol and price. */
  lemma {:induction false} AdditionSays(ev: MarketEvent, locate: nat)
    requires WireSymbol(ev.symbol) && ev.ev.Added? && ev.ev.id < TWO64 && ev.ev.qty < TWO32 && 0 <= ev.ev.price < TWO32
    ensures Says(ev, locate, AddOrder(ev.ev.id, ev.ev.side, ev.ev.qty, ev.symbol, ev.ev.price))
  {
    hide Decode, ToItch;
    Decoded(ev, locate);
  }

  /** An order that is gone is deleted; one that stays is told to have lost so many shares. */
  lemma {:induction false} CancelSays(ev: MarketEvent, locate: nat)
    requires WireSymbol(ev.symbol) && ev.ev.Canceled? && ev.ev.id < TWO64 && ev.ev.qty < TWO32
    ensures Says(ev, locate, if ev.ev.removed then OrderDelete(ev.ev.id) else OrderCancel(ev.ev.id, ev.ev.qty))
  {
    hide Decode, ToItch;
    Decoded(ev, locate);
  }

  /** A replace names the old order first, then the new one with its shares and its price. */
  lemma {:induction false} ReplaceSays(ev: MarketEvent, locate: nat)
    requires WireSymbol(ev.symbol) && ev.ev.Replaced? && ev.ev.oldId < TWO64 && ev.ev.newId < TWO64
    requires ev.ev.qty < TWO32 && 0 <= ev.ev.price < TWO32
    ensures Says(ev, locate, OrderReplace(ev.ev.oldId, ev.ev.newId, ev.ev.qty, ev.ev.price))
  {
    hide Decode, ToItch;
    Decoded(ev, locate);
  }

  // ---------------------------------------------------------------- the events of a run fit their messages

  predicate AllWired(feed: seq<MarketEvent>, n: nat) {
    forall i | 0 <= i < |feed| :: Wired(feed[i].ev, n)
  }

  lemma {:induction false} MoreRoom(e: Event, n: nat, k: nat)
    requires Wired(e, n) && n <= k
    ensures Wired(e, k)
  {
  }

  lemma {:induction false} StretchWired(feed: seq<MarketEvent>, ts: nat, sym: Symbol, es: seq<Event>, n: nat, k: nat)
    requires AllWired(feed, n) && (forall e | e in es :: Wired(e, k)) && n <= k
    ensures AllWired(feed + FeedOf(ts, sym, es), k)
  {
    var all := feed + FeedOf(ts, sym, es);
    hide Wired;
    forall i | 0 <= i < |all| ensures Wired(all[i].ev, k) {
      if i < |feed| { MoreRoom(feed[i].ev, n, k); }
    }
  }

  lemma {:induction false} StepWired(g: Engine, c: ClientCommand, locates: Symbol -> nat, k: nat)
    requires Sound(g) && OnWire(c.msg) && Mirrored(g, locates) && g.tables.nextRef <= k && AllWired(g.tables.feed, k)
    ensures AllWired(Handle(g, c.ts, c.client, c.msg).tables.feed, k + 1)
  {
    hide Sound, Handle, Publish, B.HearAll, Mirrors, FeedOf, MessagesOf, OnWire, BooksOnWire, Wired, B.ReceiveAll,
      AllWired;
    var b := B.HearAll(B.NOTHING, Publish(g.tables.feed, locates));
    var sym, es := HandleTold(g, c.ts, c.client, c.msg, b);
    forall e | e in es ensures Wired(e, k + 1) { MoreRoom(e, g.tables.nextRef + 1, k + 1); }
    StretchWired(g.tables.feed, c.ts, sym, es, k, k + 1);
  }

  /** References, prices and quantities on the feed always fit their fields. */
  lemma {:induction false} RunWired(cs: seq<ClientCommand>, locates: Symbol -> nat)
    requires AllOnWire(cs) && |cs| < TWO64
    ensures AllWired(RunEngine(cs).tables.feed, |cs| + 1)
  {
    if cs != [] {
      hide Handle, Mirrored, Sound, AllWired;
      var before := cs[..|cs| - 1];
      RunWired(before, locates);
      RunMirrored(before, locates);
      RunSound(before);
      StepWired(RunEngine(before), cs[|cs| - 1], locates, |cs|);
    }
  }

  // ---------------------------------------------------------------- executions: the feed and the clients

  /** What the owner of a resting order can know of one execution. */
  datatype Fill = Fill(client: nat, token: Token, shares: nat, matchNumber: nat)

  /** The execution that one published message tells of, with the order's owner put for its reference. */
  function FillIn(bs: seq<Bytes.Byte>, out: seq<ClientResponse>): seq<Fill> {
    var d := Decode(bs);
    if d.None? || !d.value.msg.OrderExecuted? then []
    else
      var m := d.value.msg;
      var owner := T.OwnerOf(out, m.ref);
      if owner.None? then [] else [Fill(owner.value.0, owner.value.1, m.shares, m.matchNumber)]
  }

  function PublicFills(msgs: seq<seq<Bytes.Byte>>, out: seq<ClientResponse>): seq<Fill> {
    if msgs == [] then [] else PublicFills(msgs[..|msgs| - 1], out) + FillIn(msgs[|msgs| - 1], out)
  }

  /** The executions that the owners of resting orders were told of. */
  function PrivateFills(ps: seq<T.Print>): seq<Fill> {
    if ps == [] then []
    else
      var p := ps[|ps| - 1];
      PrivateFills(ps[..|ps| - 1])
        + if p.liquidity == 'A' then [Fill(p.client, p.token, p.shares, p.matchNumber % TWO64)] else []
  }

  lemma {:induction false} PrivateJoin(ps: seq<T.Print>, qs: seq<T.Print>)
    ensures PrivateFills(ps + qs) == PrivateFills(ps) + PrivateFills(qs)
    decreases |qs|
  {
    if qs == [] {
      assert ps + qs == ps;
    } else {
      PrivateJoin(ps, qs[..|qs| - 1]);
      assert (ps + qs)[..|ps + qs| - 1] == ps + qs[..|qs| - 1];
    }
  }

  /** Each message tells of what is due to the owner of the resting order. */
  lemma {:induction false} OneFill(ev: MarketEvent, locate: nat, out: seq<ClientResponse>)
    requires WireSymbol(ev.symbol) && Wired(ev.ev, TWO64)
    ensures FillIn(ToItch(ev, locate), out)
      == PrivateFills(if ev.ev.Executed? then
                        T.PrintFor(out, ev.ev.restingId, ev.ev, 'A') + T.PrintFor(out, ev.ev.aggressorId, ev.ev, 'R')
                      else [])
  {
    match ev.ev {
      case Added(_, _, _, _) => AdditionSays(ev, locate);
      case Canceled(_, _, _) => CancelSays(ev, locate);
      case Replaced(_, _, _, _, _) => ReplaceSays(ev, locate);
      case Executed(_, _, _, _, _, _) =>
        ExecutionSays(ev, locate);
        var a, r := T.PrintFor(out, ev.ev.restingId, ev.ev, 'A'), T.PrintFor(out, ev.ev.aggressorId, ev.ev, 'R');
        PrivateJoin(a, r);
    }
    hide Decode, ToItch, T.OwnerOf;
  }

  lemma {:induction false} FillsAgree(feed: seq<MarketEvent>, locates: Symbol -> nat, out: seq<ClientResponse>)
    requires Sendable(feed) && AllWired(feed, TWO64)
    ensures PublicFills(Publish(feed, locates), out) == PrivateFills(T.PrintsOf(feed, out))
  {
    hide Wired, FillIn, ToItch, T.PrintFor, T.OwnerOf;
    if feed != [] {
      var ev, before := feed[|feed| - 1], feed[..|feed| - 1];
      FillsAgree(before, locates, out);
      OneFill(ev, locates(ev.symbol), out);
      PrivateJoin(T.PrintsOf(before, out),
        if ev.ev.Executed? then
          T.PrintFor(out, ev.ev.restingId, ev.ev, 'A') + T.PrintFor(out, ev.ev.aggressorId, ev.ev, 'R')
        else []);
      var msgs := Publish(feed, locates);
      assert msgs[..|msgs| - 1] == Publish(before, locates);
    }
  }

  /**
   For every run: the executions that a client decodes from the published bytes are, in the same order and with the same
   shares and match numbers, the executions that the engine reported to the owners of the resting orders.
   */
  lemma {:induction false} FeedMatchesReports(cs: seq<ClientCommand>, locates: Symbol -> nat)
    requires AllOnWire(cs) && |cs| < TWO64
    ensures var t := RunEngine(cs).tables;
      Sendable(t.feed) && PublicFills(Publish(t.feed, locates), t.out) == PrivateFills(T.Prints(t.out))
  {
    var t := RunEngine(cs).tables;
    RunMirrored(cs, locates);
    hide *;
    RunWired(cs, locates);
    T.BothSidesTold(cs);
    RoomFor64(t.feed, |cs| + 1);
    MirroredSends(RunEngine(cs), locates);
    FillsAgree(t.feed, locates, t.out);
  }

  lemma {:induction false} MirroredSends(g: Engine, locates: Symbol -> nat)
    requires Mirrored(g, locates)
    ensures Sendable(g.tables.feed)
  {
  }

  lemma {:induction false} RoomFor64(feed: seq<MarketEvent>, n: nat)
    requires AllWired(feed, n) && n <= TWO64
    ensures AllWired(feed, TWO64)
  {
    hide Wired;
    forall i | 0 <= i < |feed| ensures Wired(feed[i].ev, TWO64) { MoreRoom(feed[i].ev, n, TWO64); }
  }
}
