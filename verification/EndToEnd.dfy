/** From the engine object through the publisher object and a lossy network to the client object. */
module EndToEnd {
  import opened Book
  import opened Snapshots
  import opened EngineSpec
  import opened Mold
  import opened MarketFeed
  import opened FeedSession
  import opened FeedPublishing
  import opened RunLoops
  import opened MatchingEngine
  import Bytes
  import B = Builder

  /** A loop that ended published exactly the feed, if the feed is what was pushed and all of it before the stop. */
  lemma {:induction false} LoopPublishesFeed<T>(es: seq<RunLoops.Event<T>>, feed: seq<T>)
    requires FeedRun(es).loop.Ended? && FeedRun(es).q.pushed == feed && FeedRun(es).q.mark == Some(|feed|)
    ensures Joined(FeedRun(es).rounds) + FeedRun(es).late == feed
  {
    FeedDrains(es);
    hide FeedRun, Joined;
    assert feed[..|feed|] == feed;
  }

  lemma {:induction false} SendableParts(batches: seq<seq<MarketEvent>>, late: seq<MarketEvent>)
    requires Sendable(Joined(batches) + late)
    ensures Sendable(late) && forall i | 0 <= i < |batches| :: Sendable(batches[i])
  {
    var all := Joined(batches) + late;
    forall k | 0 <= k < |late| ensures WireSymbol(late[k].symbol) { assert all[|Joined(batches)| + k] == late[k]; }
    if batches != [] {
      var n := |batches| - 1;
      var before := Joined(batches[..n]);
      assert Sendable(before + batches[n]) by {
        forall k | 0 <= k < |Joined(batches)| ensures WireSymbol(Joined(batches)[k].symbol) {
          assert all[k] == Joined(batches)[k];
        }
      }
      SendableParts(batches[..n], batches[n]);
      forall i | 0 <= i < |batches| ensures Sendable(batches[i]) { if i < n { assert batches[..n][i] == batches[i]; } }
    }
  }

  lemma {:induction false} FrameAt(session: Session, ps: seq<Packet>, k: nat)
    requires k < |ps|
    ensures |Frames(session, ps)| == |ps| && Frames(session, ps)[k] == Frame(session, ps[k])
  {
    hide Frame;
    var n := |ps| - 1;
    if k < n { FrameAt(session, ps[..n], k); } else if n > 0 { FrameAt(session, ps[..n], 0); }
  }

  /** One datagram on its way: it arrives or it does not. */
  lemma {:induction false} OneDatagram(session: Session, ps: seq<Packet>, kept: seq<bool>, k: nat)
    requires |kept| == |ps| && k < |ps|
    ensures var l := Listen(session, Arriving(ps[..k], kept[..k]));
      Listen(session, Arriving(ps[..k + 1], kept[..k + 1])) == if kept[k] then B.HearPacket(l, Frame(session, ps[k]))
        else l
  {
    hide B.HearPacket, Frame;
    assert ps[..k + 1][..k] == ps[..k] && kept[..k + 1][..k] == kept[..k];
    var before := Arriving(ps[..k], kept[..k]);
    assert (before + [ps[k]])[..|before|] == before && before + [] == before;
  }

  /** Only the last packet of a session ends it, and the client can tell. */
  lemma {:induction false} EndIsLast(session: Session, ps: seq<Packet>, k: nat)
    requires k < |ps| && ParsesBack(session, ps[k]) && ps[|ps| - 1].ended && NoEnd(ps[..|ps| - 1])
    ensures Parse(Frame(session, ps[k])).Some? && (Parse(Frame(session, ps[k])).value.packet.ended <==> k == |ps| - 1)
  {
    hide Parse, Frame;
    if k < |ps| - 1 { assert ps[..|ps| - 1][k] == ps[k]; }
  }

  /** The client object hears the datagrams that arrive. */
  method Receive(client: B.ItchBookBuilder, datagrams: seq<seq<Bytes.Byte>>, kept: seq<bool>, ghost session: Session,
      ghost ps: seq<Packet>)
    returns (ended: bool)
    requires |kept| == |ps| > 0 && datagrams == Frames(session, ps) && client.View() == DEAF
    requires (forall p | p in ps :: ParsesBack(session, p)) && ps[|ps| - 1].ended && NoEnd(ps[..|ps| - 1])
    modifies client, client.gaps
    ensures client.View() == Listen(session, Arriving(ps, kept))
    ensures ended <==> kept[|kept| - 1]
  {
    hide Frame, Parse, B.HearPacket, Frames, ParsesBack;
    FrameAt(session, ps, 0);
    ended := false;
    var k := 0;
    while k < |datagrams|
      invariant k <= |datagrams| == |ps| && client.View() == Listen(session, Arriving(ps[..k], kept[..k]))
      invariant ended <==> k == |ps| && kept[|ps| - 1]
    {
      OneDatagram(session, ps, kept, k);
      FrameAt(session, ps, k);
      EndIsLast(session, ps, k);
      if kept[k] {
        var last := client.OnMoldPacket(datagrams[k]);
        if last { ended := true; }
      }
      k := k + 1;
    }
    assert ps[..k] == ps && kept[..k] == kept;
  }

  /** What the publisher sends and what a client makes of it, put together. */
  lemma {:induction false} DayFacts(cs: seq<ClientCommand>, batches: seq<seq<MarketEvent>>, late: seq<MarketEvent>,
      m: Locates, session: Session, mtu: nat, ts: seq<Turn>, ps: seq<Packet>, kept: seq<bool>, symbol: Symbol)
    requires AllOnWire(cs) && |cs| < TWO64 && |RunEngine(cs).tables.feed| < TWO64 - 1 && mtu < MTU_LIMIT
    requires Joined(batches) + late == RunEngine(cs).tables.feed && AllLocated(batches, m) && Located(late, m)
    requires ts == TurnsOf(batches, m) + [Batch(Encoded(late, m))] && ps == SessionOf(mtu, ts) && |kept| == |ps|
    ensures Sequenced(ps) && AllFit(mtu, ps) && |Flat(ps)| == |RunEngine(cs).tables.feed|
    ensures (forall p | p in ps :: ParsesBack(session, p)) && ps != [] && ps[|ps| - 1].ended && NoEnd(ps[..|ps| - 1])
    ensures var l := Listen(session, Arriving(ps, kept));
      && (l.gaps.hadGap <==> LostBefore(ps, kept))
      && (kept[|ps| - 1] ==> (l.gaps.hadGap <==> exists i :: LostAt(ps, kept, i)))
      && (kept[|ps| - 1] && !l.gaps.hadGap ==>
            B.SnapshotOf(l.books, symbol) == Some(Snapshot(BookOf(RunEngine(cs).books, symbol))))
  {
    hide *;
    SessionHandsOver(batches, late, m);
    FeedIsShort(RunEngine(cs).tables.feed, Numbering(m));
    SessionFacts(session, mtu, ts);
    SessionDelivers(cs, Numbering(m), session, mtu, ts, kept, symbol);
    NoGapMeansPrefix(session, mtu, ts, kept);
  }

  /**
   A day of the exchange, in objects. The engine handles the commands; the feed loop, on any schedule that pushes the
   engine's feed before the stop, hands its batches to the publisher; the network delivers what it likes of the
   datagrams; the client hears them. A client that hears the end of the session reports a gap if and only if a datagram
   with messages was lost, and without a gap its snapshot of every symbol is the engine's.
   */
  method Day(cs: seq<ClientCommand>, es: seq<RunLoops.Event<MarketEvent>>, session: Session, mtu: nat,
      delivered: nat -> bool, symbol: Symbol)
    returns (ended: bool, gap: bool, shown: Option<BookSnapshot>, book: BookSnapshot, ghost ps: seq<Packet>,
      kept: seq<bool>)
    requires AllOnWire(cs) && |cs| < TWO64 && |RunEngine(cs).tables.feed| < TWO64 - 1 && mtu < MTU_LIMIT
    requires FeedRun(es).loop.Ended? && FeedRun(es).q.pushed == RunEngine(cs).tables.feed
    requires FeedRun(es).q.mark == Some(|RunEngine(cs).tables.feed|)
    ensures book == Snapshot(BookOf(RunEngine(cs).books, symbol))
    ensures |kept| == |ps| > 0 && (ended <==> kept[|ps| - 1]) && Sequenced(ps) && AllFit(mtu, ps)
    ensures |Flat(ps)| == |RunEngine(cs).tables.feed|
    ensures gap <==> LostBefore(ps, kept)
    ensures ended ==> (gap <==> exists i :: LostAt(ps, kept, i))
    ensures ended && !gap ==> shown == Some(book)
  {
    hide RunEngine, FeedRun, Frames, SessionOf, Listen, Arriving, Publish, TurnsOf, Encoded, Handed, Joined, Snapshot;
    hide LostBefore, LostAt, Sequenced, AllFit, Flat, B.SnapshotOf, B.HearAll, AllOnWire, ParsesBack, Located,
      AllLocated;
    hide Sendable, NoEnd, BookOf, Short;
    LoopPublishesFeed(es, RunEngine(cs).tables.feed);
    var batches, late := FeedRun(es).rounds, FeedRun(es).late;
    FeedRebuildsBooks(cs, s => 0, symbol);
    SendableParts(batches, late);
    var out, published;
    out, published, book := RunCommands(cs, symbol);
    var publisher := new FeedPublisher(session, mtu);
    publisher.Run(batches, late);
    var datagrams := publisher.datagrams;
    ghost var ts := TurnsOf(batches, publisher.locates) + [Batch(Encoded(late, publisher.locates))];
    ps := SessionOf(mtu, ts);
    FrameAt(session, ps, 0);
    kept := seq(|datagrams|, i requires 0 <= i < |datagrams| => delivered(i));
    DayFacts(cs, batches, late, publisher.locates, session, mtu, ts, ps, kept, symbol);
    var client := new B.ItchBookBuilder();
    ended := Receive(client, datagrams, kept, session, ps);
    gap := client.gaps.hadGap;
    shown := client.Snapshot(symbol);
  }
}
