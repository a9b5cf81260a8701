/**
 A feed session over a lossy network: the publisher's turns, the datagrams that arrive, and what the client knows
 at the end.
 */
module FeedSession {
  import opened Book
  import opened Snapshots
  import opened EngineSpec
  import opened Itch
  import opened Mold
  import opened Rebuild
  import opened MarketFeed
  import Bytes
  import B = Builder

  // ---------------------------------------------------------------- the publisher

  /** One round of the publisher's loop: a batch of messages, or nothing to send. */
  datatype Turn = Batch(msgs: seq<Payload>) | Idle

  datatype Publisher = Publisher(mtu: nat, next: nat, sent: seq<Packet>)

  function AfterTurn(p: Publisher, t: Turn): Publisher {
    match t
    case Batch(ms) =>
      var k := Flushed(AddAll(Packing(p.mtu, p.next, [], []), ms));
      Publisher(p.mtu, k.start, p.sent + k.ready)
    case Idle => p.(sent := p.sent + [Packet(p.next, [], false)])
  }

  function AfterTurns(mtu: nat, ts: seq<Turn>): Publisher {
    if ts == [] then Publisher(mtu, 1, []) else AfterTurn(AfterTurns(mtu, ts[..|ts| - 1]), ts[|ts| - 1])
  }

  /** Every datagram of a session, the end of the session last. */
  function SessionOf(mtu: nat, ts: seq<Turn>): (ps: seq<Packet>)
    ensures ps != []
  {
    var p := AfterTurns(mtu, ts);
    p.sent + [Packet(p.next, [], true)]
  }

  /** The messages handed to the publisher. */
  function Handed(ts: seq<Turn>): seq<Payload> {
    if ts == [] then []
    else Handed(ts[..|ts| - 1]) + match ts[|ts| - 1] case Batch(ms) => ms case Idle => []
  }

  predicate NoEnd(ps: seq<Packet>) {
    forall p | p in ps :: !p.ended
  }

  /** The packets so far are numbered, fit, carry exactly the messages handed over, and do not end the session. */
  ghost predicate OnTrack(p: Publisher, ms: seq<Payload>) {
    && Sequenced(p.sent) && AllFit(p.mtu, p.sent) && Flat(p.sent) == ms && p.next == 1 + |ms| && NoEnd(p.sent)
  }

  lemma {:induction false} BatchOnTrack(p: Publisher, ms: seq<Payload>, more: seq<Payload>)
    requires OnTrack(p, ms)
    ensures OnTrack(AfterTurn(p, Batch(more)), ms + more)
  {
    var k := Packing(p.mtu, p.next, [], []);
    NoneEnds(k, more);
    hide AddAll, Flat, Sequenced, AllFit, Size;
    assert p.sent + k.ready == p.sent && ms + [] == ms;
    AllPacks(p.sent, k, ms, more);
    FlushPacks(p.sent, AddAll(k, more), ms + more);
    var k' := Flushed(AddAll(k, more));
    assert Flat(p.sent + k'.ready) + [] == Flat(p.sent + k'.ready);
  }

  lemma {:induction false} TurnsOnTrack(mtu: nat, ts: seq<Turn>)
    ensures OnTrack(AfterTurns(mtu, ts), Handed(ts)) && AfterTurns(mtu, ts).mtu == mtu
  {
    if ts != [] {
      var before := ts[..|ts| - 1];
      TurnsOnTrack(mtu, before);
      var p := AfterTurns(mtu, before);
      match ts[|ts| - 1] {
        case Batch(ms) => BatchOnTrack(p, Handed(before), ms);
        case Idle =>
          OneMore(mtu, p.sent, Packet(p.next, [], false));
          assert Flat(p.sent) + [] == Flat(p.sent) && Handed(before) + [] == Handed(before);
      }
    }
  }

  /** A session: numbered packets that carry exactly the messages handed over, each readable. */
  lemma {:induction false} SessionFacts(session: Session, mtu: nat, ts: seq<Turn>)
    requires mtu < MTU_LIMIT && Short(Handed(ts))
    ensures var ps := SessionOf(mtu, ts);
      && Sequenced(ps) && AllFit(mtu, ps) && Flat(ps) == Handed(ts)
      && (forall p | p in ps :: ParsesBack(session, p))
      && ps[|ps| - 1].ended && NoEnd(ps[..|ps| - 1])
  {
    TurnsOnTrack(mtu, ts);
    var p := AfterTurns(mtu, ts);
    var last := Packet(p.next, [], true);
    OneMore(mtu, p.sent, last);
    hide AfterTurns, Flat, Sequenced, AllFit, Handed, Short;
    assert Flat(p.sent) + [] == Flat(p.sent);
    assert (p.sent + [last])[..|p.sent|] == p.sent;
    EndParses(session, p.next);
    hide Parse, Frame;
    forall q | q in p.sent ensures ParsesBack(session, q) { FittingParses(session, mtu, p.sent, q); }
  }

  // ---------------------------------------------------------------- the network

  /** The packets that arrive, when `kept` says which ones do. */
  function Arriving(ps: seq<Packet>, kept: seq<bool>): seq<Packet>
    requires |kept| == |ps|
  {
    if ps == [] then []
    else
      var n := |ps| - 1;
      Arriving(ps[..n], kept[..n]) + if kept[n] then [ps[n]] else []
  }

  /** The messages lost since the last packet that arrived. */
  function Missed(ps: seq<Packet>, kept: seq<bool>): nat
    requires |kept| == |ps|
  {
    if ps == [] then 0
    else
      var n := |ps| - 1;
      if kept[n] then 0 else Missed(ps[..n], kept[..n]) + |ps[n].msgs|
  }

  predicate LostAt(ps: seq<Packet>, kept: seq<bool>, i: int)
    requires |kept| == |ps|
  {
    0 <= i < |ps| && !kept[i] && ps[i].msgs != []
  }

  /** A packet with messages was lost, and something sent after it arrived. */
  ghost predicate LostBefore(ps: seq<Packet>, kept: seq<bool>)
    requires |kept| == |ps|
  {
    exists i, j :: LostAt(ps, kept, i) && i < j < |kept| && kept[j]
  }

  lemma {:induction false} LostOrMissed(ps: seq<Packet>, kept: seq<bool>)
    requires |kept| == |ps|
    ensures (exists i :: LostAt(ps, kept, i)) <==> LostBefore(ps, kept) || Missed(ps, kept) > 0
  {
    if ps != [] {
      var n := |ps| - 1;
      var ps', kept' := ps[..n], kept[..n];
      LostOrMissed(ps', kept');
      assert forall i | i != n :: LostAt(ps, kept, i) <==> LostAt(ps', kept', i);
      LostBeforeStep(ps, kept);
      hide LostBefore;
      assert !kept[n] && ps[n].msgs != [] <==> LostAt(ps, kept, n);
      if exists i :: LostAt(ps, kept, i) {
        var i :| LostAt(ps, kept, i);
        if i != n { assert LostAt(ps', kept', i); }
      }
      if exists i :: LostAt(ps', kept', i) {
        var i :| LostAt(ps', kept', i);
        assert LostAt(ps, kept, i);
      }
    }
  }

  lemma {:induction false} LostBeforeStep(ps: seq<Packet>, kept: seq<bool>)
    requires |kept| == |ps| > 0
    ensures var n := |ps| - 1;
      LostBefore(ps, kept) <==> LostBefore(ps[..n], kept[..n]) || (kept[n] && exists i :: LostAt(ps[..n], kept[..n], i))
  {
    var n := |ps| - 1;
    var ps', kept' := ps[..n], kept[..n];
    assert forall i | i != n :: LostAt(ps, kept, i) <==> LostAt(ps', kept', i);
    if LostBefore(ps, kept) {
      var i, j :| LostAt(ps, kept, i) && i < j < |kept| && kept[j];
      assert LostAt(ps', kept', i);
      if j < n { assert kept'[j]; }
    }
    if LostBefore(ps', kept') {
      var i, j :| LostAt(ps', kept', i) && i < j < |kept'| && kept'[j];
      assert LostAt(ps, kept, i) && kept[j];
    }
    if kept[n] && exists i :: LostAt(ps', kept', i) {
      var i :| LostAt(ps', kept', i);
      assert LostAt(ps, kept, i);
    }
  }

  // ---------------------------------------------------------------- the client

  const DEAF := B.Listener(B.NOTHING, Gaps(1, false))

  /** The client after the datagrams of these packets. */
  function Listen(session: Session, ps: seq<Packet>): B.Listener {
    if ps == [] then DEAF else B.HearPacket(Listen(session, ps[..|ps| - 1]), Frame(session, ps[|ps| - 1]))
  }

  lemma {:induction false} HearSplit(b: B.Books, ms: seq<Payload>, ms': seq<Payload>)
    ensures B.HearAll(b, ms + ms') == B.HearAll(B.HearAll(b, ms), ms')
  {
    hide B.Hear;
    if ms' == [] {
      assert ms + ms' == ms;
    } else {
      assert (ms + ms')[..|ms + ms'| - 1] == ms + ms'[..|ms'| - 1];
      HearSplit(b, ms, ms'[..|ms'| - 1]);
    }
  }

  /** The client expects the message after the last packet it saw, knows of every loss before it, and has the rest. */
  ghost predicate Informed(l: B.Listener, ps: seq<Packet>, kept: seq<bool>)
    requires |kept| == |ps|
  {
    && Missed(ps, kept) <= |Flat(ps)|
    && l.gaps.expected == 1 + |Flat(ps)| - Missed(ps, kept)
    && (l.gaps.hadGap <==> LostBefore(ps, kept))
    && (!l.gaps.hadGap ==> l.books == B.HearAll(B.NOTHING, Flat(ps)[..|Flat(ps)| - Missed(ps, kept)]))
  }

  lemma {:induction false} NotArrived(l: B.Listener, ps: seq<Packet>, kept: seq<bool>)
    requires |kept| == |ps| > 0 && !kept[|ps| - 1] && Informed(l, ps[..|ps| - 1], kept[..|ps| - 1])
    ensures Informed(l, ps, kept)
  {
    var n := |ps| - 1;
    LostBeforeStep(ps, kept);
    var had, missed := Flat(ps[..n]), Missed(ps[..n], kept[..n]);
    assert Flat(ps)[..|had| - missed] == had[..|had| - missed];
    hide LostBefore, B.HearAll;
  }

  /** The detector on a packet that is not behind what it expects. */
  lemma {:induction false} InOrder(g: Gaps, seqNo: nat, count: nat)
    requires g.expected <= seqNo && seqNo + count < TWO64
    ensures AfterPacket(g, seqNo, count) == Gaps(seqNo + count, g.hadGap || seqNo > g.expected)
  {
    assert (seqNo + count) % TWO64 == seqNo + count;
  }

  lemma {:induction false} HearFramed(session: Session, l: B.Listener, p: Packet)
    requires ParsesBack(session, p) && l.gaps.expected <= p.seqNo && p.seqNo + |p.msgs| < TWO64
    ensures B.HearPacket(l, Frame(session, p)) ==
      B.Listener(B.HearAll(l.books, p.msgs), Gaps(p.seqNo + |p.msgs|, l.gaps.hadGap || p.seqNo > l.gaps.expected))
  {
    hide Parse, Frame, AfterPacket, B.HearAll;
    InOrder(l.gaps, p.seqNo, |p.msgs|);
    assert p.seqNo % TWO64 == p.seqNo;
    assert p.(seqNo := p.seqNo % TWO64) == p;
  }

  lemma {:induction false} Arrived(session: Session, l: B.Listener, ps: seq<Packet>, kept: seq<bool>)
    requires |kept| == |ps| > 0 && kept[|ps| - 1] && Informed(l, ps[..|ps| - 1], kept[..|ps| - 1])
    requires Sequenced(ps) && ParsesBack(session, ps[|ps| - 1]) && |Flat(ps)| < TWO64 - 1
    ensures Informed(B.HearPacket(l, Frame(session, ps[|ps| - 1])), ps, kept)
  {
    hide *;
    var n := |ps| - 1;
    LastOfAll(ps, kept);
    LostBeforeStep(ps, kept);
    LostOrMissed(ps[..n], kept[..n]);
    UseInformed(l, ps[..n], kept[..n]);
    HearSplit(B.NOTHING, Flat(ps[..n]), ps[n].msgs);
    HearFramed(session, l, ps[n]);
    UpToDate(B.HearPacket(l, Frame(session, ps[n])), ps, kept);
  }

  lemma {:induction false} LastOfAll(ps: seq<Packet>, kept: seq<bool>)
    requires |kept| == |ps| > 0 && Sequenced(ps) && kept[|ps| - 1]
    ensures var n := |ps| - 1;
      Flat(ps) == Flat(ps[..n]) + ps[n].msgs && ps[n].seqNo == 1 + |Flat(ps[..n])| && Missed(ps, kept) == 0
  {
  }

  lemma {:induction false} UseInformed(l: B.Listener, ps: seq<Packet>, kept: seq<bool>)
    requires |kept| == |ps| && Informed(l, ps, kept)
    ensures l.gaps.expected == 1 + |Flat(ps)| - Missed(ps, kept)
    ensures l.gaps.hadGap <==> LostBefore(ps, kept)
    ensures !l.gaps.hadGap && Missed(ps, kept) == 0 ==> l.books == B.HearAll(B.NOTHING, Flat(ps))
  {
    assert Flat(ps)[..|Flat(ps)|] == Flat(ps);
  }

  lemma {:induction false} UpToDate(l: B.Listener, ps: seq<Packet>, kept: seq<bool>)
    requires |kept| == |ps| && Missed(ps, kept) == 0 && l.gaps.expected == 1 + |Flat(ps)|
      && (l.gaps.hadGap <==> LostBefore(ps, kept))
    requires !l.gaps.hadGap ==> l.books == B.HearAll(B.NOTHING, Flat(ps))
    ensures Informed(l, ps, kept)
  {
    assert Flat(ps)[..|Flat(ps)|] == Flat(ps);
  }

  lemma {:induction false} ClientInformed(session: Session, ps: seq<Packet>, kept: seq<bool>)
    requires |kept| == |ps| && Sequenced(ps) && |Flat(ps)| < TWO64 - 1
    requires forall p | p in ps :: ParsesBack(session, p)
    ensures Informed(Listen(session, Arriving(ps, kept)), ps, kept)
  {
    hide ParsesBack, Frame, B.HearPacket;
    if ps == [] {
      assert !LostBefore(ps, kept);
    } else {
      var n := |ps| - 1;
      var before := Arriving(ps[..n], kept[..n]);
      assert |Flat(ps[..n])| <= |Flat(ps)|;
      ClientInformed(session, ps[..n], kept[..n]);
      hide Flat, Sequenced, Informed;
      if kept[n] {
        assert (before + [ps[n]])[..|before|] == before;
        Arrived(session, Listen(session, before), ps, kept);
      } else {
        assert before + [] == before;
        NotArrived(Listen(session, before), ps, kept);
      }
    }
  }

  // ---------------------------------------------------------------- the whole session

  lemma {:induction false} MessageIsShort(f: Framed)
    requires Encodable(f.msg)
    ensures |Encode(f)| < 0x1_0000
  {
    WidthBound(Layout(TypeCode(f.msg)));
    hide Encode, Bytes.Width;
  }

  lemma {:induction false} WidthBound(ws: seq<nat>)
    requires forall i | 0 <= i < |ws| :: ws[i] <= 8
    ensures Bytes.Width(ws) <= 8 * |ws|
  {
    if ws != [] { WidthBound(ws[1..]); }
  }

  lemma {:induction false} FeedIsShort(feed: seq<MarketEvent>, locates: Symbol -> nat)
    requires Sendable(feed)
    ensures Short(Publish(feed, locates)) && |Publish(feed, locates)| == |feed|
  {
    hide Encode;
    if feed != [] {
      var n := |feed| - 1;
      FeedIsShort(feed[..n], locates);
      var ev := feed[n];
      MessageIsShort(Framed(Header(locates(ev.symbol), 0, ev.ts), MessageOf(ev.symbol, ev.ev)));
    }
  }

  /**
   A client that saw the end of a session of the feed of any run, over a network that loses datagrams at will: it
   reports a gap if and only if a datagram with messages was lost, and without a gap it shows the engine's book of
   every symbol. The publisher may cut the feed into batches, and send heartbeats, as it likes.
   */
  lemma {:induction false} SessionDelivers(cs: seq<ClientCommand>, locates: Symbol -> nat, session: Session, mtu: nat,
      ts: seq<Turn>, kept: seq<bool>, symbol: Symbol)
    requires AllOnWire(cs) && |cs| < TWO64 && |RunEngine(cs).tables.feed| < TWO64 - 1 && mtu < MTU_LIMIT
    ensures Sendable(RunEngine(cs).tables.feed)
    ensures
      && Handed(ts) == Publish(RunEngine(cs).tables.feed, locates)
      && |kept| == |SessionOf(mtu, ts)| && kept[|kept| - 1]
      ==>
      var ps, books := SessionOf(mtu, ts), RunEngine(cs).books;
      var l := Listen(session, Arriving(ps, kept));
      && (l.gaps.hadGap <==> exists i :: LostAt(ps, kept, i))
      && (!l.gaps.hadGap ==> B.SnapshotOf(l.books, symbol) == Some(Snapshot(BookOf(books, symbol))))
  {
    hide *;
    var feed := RunEngine(cs).tables.feed;
    FeedRebuildsBooks(cs, locates, symbol);
    if Handed(ts) == Publish(feed, locates) && |kept| == |SessionOf(mtu, ts)| && kept[|kept| - 1] {
      FeedIsShort(feed, locates);
      SessionFacts(session, mtu, ts);
      var ps := SessionOf(mtu, ts);
      ClientInformed(session, ps, kept);
      UseInformed(Listen(session, Arriving(ps, kept)), ps, kept);
      LostOrMissed(ps, kept);
      LastOfAll(ps, kept);
    }
  }

  /** What a client without a gap has at any time: a prefix of the feed, up to the last datagram it saw. */
  lemma {:induction false} NoGapMeansPrefix(session: Session, mtu: nat, ts: seq<Turn>, kept: seq<bool>)
    requires mtu < MTU_LIMIT && Short(Handed(ts)) && |Handed(ts)| < TWO64 - 1 && |kept| == |SessionOf(mtu, ts)|
    ensures var ps := SessionOf(mtu, ts); var l := Listen(session, Arriving(ps, kept));
      && (l.gaps.hadGap <==> LostBefore(ps, kept))
      && (!l.gaps.hadGap ==>
            && 1 <= l.gaps.expected <= 1 + |Handed(ts)|
            && l.books == B.HearAll(B.NOTHING, Handed(ts)[..l.gaps.expected - 1]))
  {
    hide *;
    SessionFacts(session, mtu, ts);
    var ps := SessionOf(mtu, ts);
    ClientInformed(session, ps, kept);
    InformedPrefix(Listen(session, Arriving(ps, kept)), ps, kept);
  }

  lemma {:induction false} InformedPrefix(l: B.Listener, ps: seq<Packet>, kept: seq<bool>)
    requires |kept| == |ps| && Informed(l, ps, kept)
    ensures l.gaps.hadGap <==> LostBefore(ps, kept)
    ensures !l.gaps.hadGap ==>
      && 1 <= l.gaps.expected <= 1 + |Flat(ps)|
      && l.books == B.HearAll(B.NOTHING, Flat(ps)[..l.gaps.expected - 1])
  {
    hide LostBefore, Flat, Missed, B.HearAll;
  }
}
