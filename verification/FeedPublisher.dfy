/** The feed publisher: numbers symbols, encodes events, packs them and sends the datagrams. */
module FeedPublishing {
  import opened EngineSpec
  import opened Mold
  import opened MarketFeed
  import opened FeedSession
  import opened RunLoops
  import Bytes

  type Locates = map<Symbol, nat>

  ghost predicate Extends(m: Locates, m': Locates) {
    forall s | s in m :: s in m' && m'[s] == m[s]
  }

  predicate Located(evs: seq<MarketEvent>, m: Locates) {
    forall i | 0 <= i < |evs| :: evs[i].symbol in m && WireSymbol(evs[i].symbol)
  }

  /** The encoded events of a batch. */
  function Encoded(evs: seq<MarketEvent>, m: Locates): seq<Payload>
    requires Located(evs, m)
  {
    if evs == [] then []
    else var n := |evs| - 1; Encoded(evs[..n], m) + [ToItch(evs[n], m[evs[n].symbol])]
  }

  predicate AllLocated(batches: seq<seq<MarketEvent>>, m: Locates) {
    forall i | 0 <= i < |batches| :: Located(batches[i], m)
  }

  /** A round without events sends a heartbeat. */
  function TurnsOf(batches: seq<seq<MarketEvent>>, m: Locates): seq<Turn>
    requires AllLocated(batches, m)
  {
    if batches == [] then []
    else
      var n := |batches| - 1;
      TurnsOf(batches[..n], m) + [if batches[n] == [] then Idle else Batch(Encoded(batches[n], m))]
  }

  lemma {:induction false} EncodedStays(evs: seq<MarketEvent>, m: Locates, m': Locates)
    requires Located(evs, m) && Extends(m, m')
    ensures Located(evs, m') && Encoded(evs, m') == Encoded(evs, m)
  {
    hide ToItch;
    if evs != [] { EncodedStays(evs[..|evs| - 1], m, m'); }
  }

  lemma {:induction false} TurnsStay(batches: seq<seq<MarketEvent>>, m: Locates, m': Locates)
    requires AllLocated(batches, m) && Extends(m, m')
    ensures AllLocated(batches, m') && TurnsOf(batches, m') == TurnsOf(batches, m)
  {
    hide Encoded, Located, Extends;
    if batches != [] {
      var n := |batches| - 1;
      TurnsStay(batches[..n], m, m');
      EncodedStays(batches[n], m, m');
      forall i | 0 <= i < |batches| ensures Located(batches[i], m') {
        if i < n { assert batches[i] == batches[..n][i]; }
      }
    }
  }

  function Numbering(m: Locates): Symbol -> nat {
    s => if s in m then m[s] else 0
  }

  lemma {:induction false} PublishGrows(feed: seq<MarketEvent>, evs: seq<MarketEvent>, m: Locates)
    requires Sendable(feed) && Located(evs, m)
    ensures Sendable(feed + evs) && Publish(feed + evs, Numbering(m)) == Publish(feed, Numbering(m)) + Encoded(evs, m)
  {
    hide ToItch;
    if evs == [] {
      assert feed + evs == feed && Publish(feed, Numbering(m)) + [] == Publish(feed, Numbering(m));
    } else {
      var n, all := |evs| - 1, feed + evs;
      PublishGrows(feed, evs[..n], m);
      assert all[..|all| - 1] == feed + evs[..n] && all[|all| - 1] == evs[n];
      var before, last := Publish(feed, Numbering(m)), [ToItch(evs[n], m[evs[n].symbol])];
      assert before + Encoded(evs[..n], m) + last == before + (Encoded(evs[..n], m) + last);
    }
  }

  /** The publisher hands over the encoded feed, whatever the batches. */
  lemma {:induction false} HandsOverFeed(batches: seq<seq<MarketEvent>>, m: Locates)
    requires AllLocated(batches, m)
    ensures Sendable(Joined(batches)) && Handed(TurnsOf(batches, m)) == Publish(Joined(batches), Numbering(m))
  {
    hide ToItch;
    if batches != [] {
      var n := |batches| - 1;
      HandsOverFeed(batches[..n], m);
      PublishGrows(Joined(batches[..n]), batches[n], m);
      var ts := TurnsOf(batches, m);
      assert ts[..|ts| - 1] == TurnsOf(batches[..n], m);
    }
  }

  /** The same for a whole session, with the batch that is published after the loop. */
  lemma {:induction false} SessionHandsOver(batches: seq<seq<MarketEvent>>, late: seq<MarketEvent>, m: Locates)
    requires AllLocated(batches, m) && Located(late, m)
    ensures Sendable(Joined(batches) + late)
    ensures Handed(TurnsOf(batches, m) + [Batch(Encoded(late, m))]) == Publish(Joined(batches) + late, Numbering(m))
  {
    HandsOverFeed(batches, m);
    PublishGrows(Joined(batches), late, m);
    var ts := TurnsOf(batches, m);
    assert (ts + [Batch(Encoded(late, m))])[..|ts|] == ts;
  }

  class FeedPublisher {
    const packetizer: Packetizer
    var locates: Locates
    var datagrams: seq<seq<Bytes.Byte>>
    ghost var log: Publisher

    ghost predicate Valid()
      reads this, packetizer
    {
      && packetizer.Valid()
      && packetizer.View() == Packing(packetizer.mtu, log.next, [], [])
      && log.mtu == packetizer.mtu
      && datagrams == Frames(packetizer.session, log.sent)
    }

    constructor (session: Session, mtu: nat)
      ensures Valid() && fresh(packetizer) && packetizer.session == session && log == Publisher(mtu, 1, [])
        && locates == map[]
    {
      packetizer := new Packetizer(session, mtu);
      locates, datagrams, log := map[], [], Publisher(mtu, 1, []);
    }

    /** Symbols are numbered from 1 in the order in which they first appear. */
    method LocateFor(symbol: Symbol) returns (locate: nat)
      modifies this`locates
      ensures symbol in locates && locates[symbol] == locate && Extends(old(locates), locates)
      ensures symbol !in old(locates) ==> locate == (|old(locates)| + 1) % 0x1_0000
    {
      if symbol in locates { return locates[symbol]; }
      locate := (|locates| + 1) % 0x1_0000;
      locates := locates[symbol := locate];
    }

    /** Encodes the events and hands them to the packetizer. */
    method Fill(evs: seq<MarketEvent>)
      requires packetizer.Valid() && Sendable(evs)
      modifies this`locates, packetizer
      ensures packetizer.Valid() && Extends(old(locates), locates) && Located(evs, locates)
      ensures packetizer.View() == AddAll(old(packetizer.View()), Encoded(evs, locates))
    {
      hide ToItch, WithMessage, Packetizer.Valid;
      assert evs[..|evs|] == evs;
      var i := 0;
      while i < |evs|
        invariant i <= |evs| && packetizer.Valid() && Extends(old(locates), locates) && Located(evs[..i], locates)
        invariant packetizer.View() == AddAll(old(packetizer.View()), Encoded(evs[..i], locates))
      {
        ghost var was := locates;
        var ev := evs[i];
        var locate := LocateFor(ev.symbol);
        EncodedStays(evs[..i], was, locates);
        ghost var done := evs[..i + 1];
        assert done[..i] == evs[..i] && done[i] == ev;
        packetizer.AddMessage(ToItch(ev, locate));
        ghost var ms := Encoded(done, locates);
        assert ms[..|ms| - 1] == Encoded(evs[..i], locates);
        i := i + 1;
      }
    }

    method Publish(evs: seq<MarketEvent>)
      requires Valid() && Sendable(evs)
      modifies this, packetizer
      ensures Valid() && Extends(old(locates), locates) && Located(evs, locates)
      ensures log == AfterTurn(old(log), Batch(Encoded(evs, locates)))
    {
      hide Encoded, Frames, AddAll, Packetizer.Valid, Sendable, Extends, Located;
      Fill(evs);
      packetizer.Flush();
      ghost var ready := packetizer.View().ready;
      var packets := packetizer.TakePackets();
      FramesAppend(packetizer.session, log.sent, ready);
      datagrams := datagrams + packets;
      log := AfterTurn(log, Batch(Encoded(evs, locates)));
    }

    method Beat()
      requires Valid()
      modifies this`datagrams, this`log
      ensures Valid() && log == AfterTurn(old(log), Idle)
    {
      var packet := packetizer.Heartbeat();
      FramesOne(packetizer.session, log.sent, Packet(log.next, [], false));
      datagrams := datagrams + [packet];
      log := AfterTurn(log, Idle);
    }

    /**
     A whole session: the rounds until the queue is stopped, what was still queued then, and the end of the session.
     */
    method Run(batches: seq<seq<MarketEvent>>, rest: seq<MarketEvent>)
      requires Valid() && log == Publisher(packetizer.mtu, 1, [])
      requires Sendable(rest) && forall i | 0 <= i < |batches| :: Sendable(batches[i])
      modifies this, packetizer
      ensures AllLocated(batches, locates) && Located(rest, locates)
      ensures datagrams == Frames(packetizer.session,
        SessionOf(packetizer.mtu, TurnsOf(batches, locates) + [Batch(Encoded(rest, locates))]))
    {
      hide Encoded, Frames, Packetizer.Valid, Sendable, Extends, Located, AfterTurn;
      assert batches[..|batches|] == batches;
      var i := 0;
      while i < |batches|
        invariant i <= |batches| && Valid() && AllLocated(batches[..i], locates)
        invariant log == AfterTurns(packetizer.mtu, TurnsOf(batches[..i], locates))
      {
        Round(batches[..i], batches[i]);
        assert batches[..i] + [batches[i]] == batches[..i + 1];
        i := i + 1;
      }
      ghost var was := locates;
      Publish(rest);
      TurnsStay(batches, was, locates);
      ghost var ts := TurnsOf(batches, locates);
      ghost var all := ts + [Batch(Encoded(rest, locates))];
      assert all[..|all| - 1] == ts;
      var packet := packetizer.EndOfSession();
      FramesOne(packetizer.session, log.sent, Packet(log.next, [], true));
      datagrams := datagrams + [packet];
    }

    method Round(ghost before: seq<seq<MarketEvent>>, evs: seq<MarketEvent>)
      requires Valid() && Sendable(evs) && AllLocated(before, locates)
      requires log == AfterTurns(packetizer.mtu, TurnsOf(before, locates))
      modifies this, packetizer
      ensures Valid() && AllLocated(before + [evs], locates)
      ensures log == AfterTurns(packetizer.mtu, TurnsOf(before + [evs], locates))
    {
      hide Encoded, Frames, Packetizer.Valid, Sendable, Extends, AfterTurn;
      ghost var was := locates;
      if evs == [] { Beat(); assert Extends(was, locates) by { KeepsAll(was); } } else { Publish(evs); }
      TurnsStay(before, was, locates);
      ghost var all := before + [evs];
      assert all[..|all| - 1] == before;
      ghost var ts := TurnsOf(all, locates);
      assert ts[..|ts| - 1] == TurnsOf(before, locates);
    }
  }

  lemma {:induction false} KeepsAll(m: Locates)
    ensures Extends(m, m)
  {
  }

  lemma {:induction false} FramesOne(session: Session, ps: seq<Packet>, p: Packet)
    ensures Frames(session, ps + [p]) == Frames(session, ps) + [Frame(session, p)]
  {
    hide Frame;
    assert (ps + [p])[..|ps|] == ps;
  }

  lemma {:induction false} FramesAppend(session: Session, ps: seq<Packet>, qs: seq<Packet>)
    ensures Frames(session, ps + qs) == Frames(session, ps) + Frames(session, qs)
  {
    hide Frame;
    if qs == [] {
      assert ps + qs == ps;
    } else {
      assert (ps + qs)[..|ps + qs| - 1] == ps + qs[..|qs| - 1];
      FramesAppend(session, ps, qs[..|qs| - 1]);
    }
  }
}
