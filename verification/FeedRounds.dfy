/** What one round of the publisher puts on the wire: full packets, or one heartbeat. */
module FeedRounds {
  import opened Bytes
  import opened EngineSpec
  import opened Mold
  import opened MarketFeed
  import opened FeedSession
  import opened RunLoops
  import opened FeedPublishing

  // ---------------------------------------------------------------- bytes

  /** A datagram: the session, the number of its first message in eight bytes, the count in two, and the blocks. */
  lemma {:induction false} DatagramLayout(session: Session, p: Packet)
    ensures var bs := Frame(session, p);
      && |bs| == 20 + |Blocks(p.msgs)| && bs[..10] == session && bs[20..] == Blocks(p.msgs)
      && Number(bs[10..18]) == p.seqNo % 0x1_0000_0000_0000_0000
      && Number(bs[18..20]) == (if p.ended then 65535 else |p.msgs| % 0x1_0000)
  {
    hide MakeHeader, Blocks, Number;
    HeaderFields(session, p.seqNo, if p.ended then END_OF_SESSION else |p.msgs|, Blocks(p.msgs));
  }

  /** A block: the length of the message in two bytes, high byte first, and the message. */
  lemma {:induction false} BlockLayout(m: Payload)
    requires |m| < 0x1_0000
    ensures Block(m) == [|m| / 256, |m| % 256] + m
  {
    TwoPut(|m|);
    hide Put;
    assert |m| / 256 < 256;
  }

  // ---------------------------------------------------------------- packets are as full as they can be

  /** The first message of the next packet would not have fit. */
  predicate FullBefore(mtu: nat, p: Packet, q: Packet) {
    p.msgs != [] && q.msgs != [] && 20 + |Blocks(p.msgs)| + 2 + |q.msgs[0]| > mtu
  }

  predicate Tight(mtu: nat, ps: seq<Packet>) {
    && (forall p | p in ps :: p.msgs != [])
    && (forall i | 0 <= i < |ps| - 1 :: FullBefore(mtu, ps[i], ps[i + 1]))
  }

  lemma {:induction false} TightMore(mtu: nat, ps: seq<Packet>, p: Packet)
    requires Tight(mtu, ps) && p.msgs != [] && (ps != [] ==> FullBefore(mtu, ps[|ps| - 1], p))
    ensures Tight(mtu, ps + [p])
  {
    var all := ps + [p];
    hide FullBefore;
    forall i | 0 <= i < |all| - 1 ensures FullBefore(mtu, all[i], all[i + 1]) {
      if i < |ps| - 1 { assert FullBefore(mtu, ps[i], ps[i + 1]); }
    }
  }

  /** The packets that are ready and the one being filled. */
  function Filling(k: Packing): Packet {
    Packet(k.start, k.cur, false)
  }

  ghost predicate Filled(k: Packing) {
    && Tight(k.mtu, k.ready) && (k.cur == [] ==> k.ready == [])
    && (k.ready != [] ==> FullBefore(k.mtu, k.ready[|k.ready| - 1], Filling(k)))
  }

  lemma {:induction false} AddFills(k: Packing, m: Payload)
    requires Filled(k)
    ensures Filled(WithMessage(k, m)) && WithMessage(k, m).cur != []
  {
    hide Blocks, Tight;
    if k.cur != [] { TightMore(k.mtu, k.ready, Filling(k)); }
  }

  lemma {:induction false} AllFill(k: Packing, ms: seq<Payload>)
    requires Filled(k)
    ensures Filled(AddAll(k, ms)) && (ms != [] ==> AddAll(k, ms).cur != [])
  {
    hide Filled, WithMessage;
    if ms != [] {
      AllFill(k, ms[..|ms| - 1]);
      AddFills(AddAll(k, ms[..|ms| - 1]), ms[|ms| - 1]);
    }
  }

  lemma {:induction false} FlushFills(k: Packing)
    requires Filled(k)
    ensures Tight(k.mtu, Flushed(k).ready)
  {
    hide Blocks, Tight;
    if k.cur != [] { TightMore(k.mtu, k.ready, Filling(k)); }
  }

  lemma {:induction false} FlatJoin(ps: seq<Packet>, qs: seq<Packet>)
    ensures Flat(ps + qs) == Flat(ps) + Flat(qs)
    decreases |qs|
  {
    if qs == [] {
      assert ps + qs == ps;
    } else {
      var front := qs[..|qs| - 1];
      FlatJoin(ps, front);
      assert (ps + qs)[..|ps + qs| - 1] == ps + front;
    }
  }

  // ---------------------------------------------------------------- rounds

  lemma {:induction false} BatchSends(p: Publisher, ms: seq<Payload>, more: seq<Payload>) returns (ps: seq<Packet>)
    requires OnTrack(p, ms)
    ensures AfterTurn(p, Batch(more)).sent == p.sent + ps && Tight(p.mtu, ps) && Flat(ps) == more
  {
    var k := Packing(p.mtu, p.next, [], []);
    assert Filled(k);
    AllFill(k, more);
    FlushFills(AddAll(k, more));
    ps := Flushed(AddAll(k, more)).ready;
    BatchOnTrack(p, ms, more);
    FlatJoin(p.sent, ps);
    hide Flat, Tight, AddAll, Sequenced, AllFit;
    assert Flat(p.sent) == ms && ms + Flat(ps) == ms + more;
    SameTail(ms, Flat(ps), more);
  }

  lemma {:induction false} SameTail<T>(a: seq<T>, b: seq<T>, c: seq<T>)
    requires a + b == a + c
    ensures b == c
  {
    assert b == (a + b)[|a|..] && c == (a + c)[|a|..];
  }

  /**
   After any rounds: a round with nothing to send sends exactly one empty packet, with the number of the next message. A
   batch goes out in packets that carry exactly its messages, none of them empty, and each so full that the next message
   did not fit.
   */
  lemma {:induction false} RoundSends(mtu: nat, ts: seq<Turn>, t: Turn) returns (ps: seq<Packet>)
    ensures AfterTurns(mtu, ts + [t]).sent == AfterTurns(mtu, ts).sent + ps
    ensures t.Idle? ==> ps == [Packet(1 + |Handed(ts)|, [], false)]
    ensures t.Batch? ==> Tight(mtu, ps) && Flat(ps) == t.msgs
  {
    assert (ts + [t])[..|ts|] == ts;
    var p := AfterTurns(mtu, ts);
    assert AfterTurns(mtu, ts + [t]) == AfterTurn(p, t);
    TurnsOnTrack(mtu, ts);
    hide AfterTurns, Handed, Tight;
    if t.Idle? {
      ps := [Packet(1 + |Handed(ts)|, [], false)];
    } else {
      ps := BatchSends(p, Handed(ts), t.msgs);
    }
  }

  lemma {:induction false} AsManyMessages(feed: seq<MarketEvent>, locates: Symbol -> nat)
    requires Sendable(feed)
    ensures |Publish(feed, locates)| == |feed|
  {
    if feed != [] { AsManyMessages(feed[..|feed| - 1], locates); }
  }

  /**
   The same for the batches that the publisher takes off its queue: an empty one makes a heartbeat with the number of
   the next event, any other one the packets of its encoded events.
   */
  lemma {:induction false} BatchOnTheWire(mtu: nat, batches: seq<seq<MarketEvent>>, evs: seq<MarketEvent>, m: Locates)
    returns (ps: seq<Packet>)
    requires AllLocated(batches + [evs], m)
    ensures AllLocated(batches, m) && Located(evs, m)
    ensures AfterTurns(mtu, TurnsOf(batches + [evs], m)).sent == AfterTurns(mtu, TurnsOf(batches, m)).sent + ps
    ensures evs == [] ==> ps == [Packet(1 + |Joined(batches)|, [], false)]
    ensures evs != [] ==> Tight(mtu, ps) && Flat(ps) == Encoded(evs, m)
  {
    var all := batches + [evs];
    hide Located;
    assert all[|batches|] == evs && all[..|batches|] == batches;
    forall i | 0 <= i < |batches| ensures Located(batches[i], m) { assert all[i] == batches[i]; }
    HandsOverFeed(batches, m);
    AsManyMessages(Joined(batches), Numbering(m));
    hide AfterTurns, Encoded, Joined, Handed, Publish, Tight, Flat;
    var t := TurnsOf(all, m)[|TurnsOf(all, m)| - 1];
    ps := RoundSends(mtu, TurnsOf(batches, m), t);
  }
}
