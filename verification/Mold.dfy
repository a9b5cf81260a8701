/** MoldUDP64 downstream packets: framing, splitting a message stream into packets, and parsing. */
module Mold {
  import opened Book
  import opened Bytes

  type Payload = seq<Byte>
  type Session = s: seq<Byte> | |s| == 10 witness seq(10, _ => 32)

  const HEADER_SIZE := 20
  const END_OF_SESSION := 0xFFFF

  /** What a packet says: the number of its first message, its messages, and whether the session ends. */
  datatype Packet = Packet(seqNo: nat, msgs: seq<Payload>, ended: bool)

  datatype Downstream = Downstream(session: Session, packet: Packet)

  function MakeHeader(session: Session, seqNo: nat, count: nat): (bs: seq<Byte>)
    ensures |bs| == HEADER_SIZE
  {
    session + Put(seqNo, 8) + Put(count, 2)
  }

  function Block(m: Payload): seq<Byte> {
    Put(|m|, 2) + m
  }

  function Blocks(ms: seq<Payload>): seq<Byte> {
    if ms == [] then [] else Blocks(ms[..|ms| - 1]) + Block(ms[|ms| - 1])
  }

  function Frame(session: Session, p: Packet): seq<Byte> {
    MakeHeader(session, p.seqNo, if p.ended then END_OF_SESSION else |p.msgs|) + Blocks(p.msgs)
  }

  // ---------------------------------------------------------------- parsing

  /** The messages of `count` blocks, if these and nothing else make up the bytes. */
  function ParseBlocks(bs: seq<Byte>, count: nat): Option<seq<Payload>> {
    if count == 0 then (if bs == [] then Some([]) else None)
    else if |bs| < 2 then None
    else
      var len := Number(bs[..2]);
      if |bs| < 2 + len then None
      else
        var rest := ParseBlocks(bs[2 + len..], count - 1);
        if rest.None? then None else Some([bs[2..2 + len]] + rest.value)
  }

  function Parse(bs: seq<Byte>): Option<Downstream> {
    if |bs| < HEADER_SIZE then None
    else
      var session, seqNo, count := bs[..10], Number(bs[10..18]), Number(bs[18..20]);
      var ms := if count == END_OF_SESSION then ParseBlocks(bs[20..], 0) else ParseBlocks(bs[20..], count);
      if ms.None? then None else Some(Downstream(session, Packet(seqNo, ms.value, count == END_OF_SESSION)))
  }

  /** Messages that were read already go in front of what the rest of the packet says. */
  function Prepend(ms: seq<Payload>, rest: Option<seq<Payload>>): Option<seq<Payload>> {
    if rest.None? then None else Some(ms + rest.value)
  }

  lemma {:induction false} PrependNothing(r: Option<seq<Payload>>)
    ensures Prepend([], r) == r
  {
    if r.Some? { assert [] + r.value == r.value; }
  }

  lemma {:induction false} PrependToEnd(ms: seq<Payload>)
    ensures Prepend(ms, Some([])) == Some(ms) && Prepend(ms, None).None?
  {
    assert ms + [] == ms;
  }

  lemma {:induction false} PrependTwice(ms: seq<Payload>, m: Payload, r: Option<seq<Payload>>)
    ensures Prepend(ms, Prepend([m], r)) == Prepend(ms + [m], r)
  {
    if r.Some? { assert ms + ([m] + r.value) == ms + [m] + r.value; }
  }

  /** One block further on in a packet. */
  lemma {:induction false} BlockAt(bs: seq<Byte>, at: nat, count: nat)
    requires at <= |bs| && count > 0
    ensures ParseBlocks(bs[at..], count) ==
      if at + 2 > |bs| || at + 2 + Number(bs[at..at + 2]) > |bs| then None
      else
        var len := Number(bs[at..at + 2]);
        Prepend([bs[at + 2..at + 2 + len]], ParseBlocks(bs[at + 2 + len..], count - 1))
  {
    hide Number;
    if at + 2 <= |bs| {
      var rest, len := bs[at..], Number(bs[at..at + 2]);
      assert rest[..2] == bs[at..at + 2];
      if at + 2 + len <= |bs| {
        assert rest[2..2 + len] == bs[at + 2..at + 2 + len] && rest[2 + len..] == bs[at + 2 + len..];
      }
    }
  }

  method ParsePacket(bs: seq<Byte>) returns (r: Option<Downstream>)
    ensures r == Parse(bs)
  {
    hide Number, Prepend;
    if |bs| < HEADER_SIZE { return None; }
    var session, seqNo, count := bs[..10], Number(bs[10..18]), Number(bs[18..20]);
    var ended := count == END_OF_SESSION;
    var msgs: seq<Payload>, at: nat := [], HEADER_SIZE;
    ghost var said := ParseBlocks(bs[20..], count);
    PrependNothing(said);
    if !ended {
      var i := 0;
      while i < count
        invariant i <= count && HEADER_SIZE <= at <= |bs|
        invariant said == Prepend(msgs, ParseBlocks(bs[at..], count - i))
      {
        BlockAt(bs, at, count - i);
        PrependToEnd(msgs);
        if at + 2 > |bs| { return None; }
        var len := Number(bs[at..at + 2]);
        at := at + 2;
        if at + len > |bs| { return None; }
        PrependTwice(msgs, bs[at..at + len], ParseBlocks(bs[at + len..], count - i - 1));
        msgs := msgs + [bs[at..at + len]];
        at := at + len;
        i := i + 1;
      }
    }
    assert bs[at..] == [] <==> at == |bs|;
    PrependToEnd(msgs);
    if at != |bs| { return None; }
    r := Some(Downstream(session, Packet(seqNo, msgs, ended)));
  }

  // ---------------------------------------------------------------- a frame parses back

  lemma {:induction false} TwoBytes(v: nat)
    ensures Number(Put(v, 2)) == v % 0x1_0000 && (v < 0x1_0000 ==> Number(Put(v, 2)) == v)
  {
    NumberPut(v, 2);
    Powers();
  }

  lemma {:induction false} TwoByteBound(bs: seq<Byte>)
    requires |bs| == 2
    ensures Number(bs) < 0x1_0000
  {
    assert bs[..1][..0] == [];
    assert Number(bs[..1]) == bs[0];
  }

  /** Every message fits its length field. */
  predicate Short(ms: seq<Payload>) {
    forall i | 0 <= i < |ms| :: |ms[i]| < 0x1_0000
  }

  lemma {:induction false} BlocksFirst(ms: seq<Payload>)
    requires ms != []
    ensures Blocks(ms) == Block(ms[0]) + Blocks(ms[1..])
  {
    hide Block;
    if |ms| == 1 {
      assert ms[..0] == [] && ms[1..] == [];
    } else {
      var k := |ms| - 1;
      BlocksFirst(ms[..k]);
      var rest := ms[1..];
      assert ms[..k][1..] == rest[..k - 1] && rest[k - 1] == ms[k];
      assert Block(ms[0]) + Blocks(rest[..k - 1]) + Block(ms[k])
        == Block(ms[0]) + (Blocks(rest[..k - 1]) + Block(ms[k]));
    }
  }

  lemma {:induction false} BlocksGrow(ms: seq<Payload>, m: Payload)
    ensures Blocks(ms + [m]) == Blocks(ms) + Block(m)
  {
    hide Block;
    assert (ms + [m])[..|ms|] == ms;
  }

  lemma {:induction false} OneBlock(m: Payload, rest: seq<Byte>, count: nat)
    requires |m| < 0x1_0000
    ensures ParseBlocks(Block(m) + rest, count + 1) == Prepend([m], ParseBlocks(rest, count))
  {
    assert Block(m) == Put(|m|, 2) + m;
    hide *;
    TwoBytes(|m|);
    var len, bs := Put(|m|, 2), Block(m) + rest;
    Slices(len, m, rest);
    BlockAt(bs, 0, count + 1);
    assert bs[0..] == bs;
  }

  lemma {:induction false} Slices<T>(a: seq<T>, b: seq<T>, c: seq<T>)
    ensures var s := a + b + c; var n := |a| + |b|; s[0..|a|] == a && s[|a|..n] == b && s[n..] == c
  {
  }

  lemma {:induction false} BlocksParse(ms: seq<Payload>)
    requires Short(ms)
    ensures ParseBlocks(Blocks(ms), |ms|) == Some(ms)
  {
    hide Block;
    if ms != [] {
      BlocksFirst(ms);
      OneBlock(ms[0], Blocks(ms[1..]), |ms| - 1);
      BlocksParse(ms[1..]);
      assert [ms[0]] + ms[1..] == ms;
    }
  }

  /** Whatever parses has short messages, as many as the count says. */
  lemma {:induction false} ParsedIsShort(bs: seq<Byte>, count: nat)
    requires ParseBlocks(bs, count).Some?
    ensures |ParseBlocks(bs, count).value| == count && Short(ParseBlocks(bs, count).value)
    decreases count
  {
    hide Number;
    if count > 0 {
      TwoByteBound(bs[..2]);
      ParsedIsShort(bs[2 + Number(bs[..2])..], count - 1);
    }
  }

  lemma {:induction false} HeaderFields(session: Session, seqNo: nat, count: nat, body: seq<Byte>)
    ensures var bs := MakeHeader(session, seqNo, count) + body;
      && bs[..10] == session && Number(bs[10..18]) == seqNo % 0x1_0000_0000_0000_0000
        && Number(bs[18..20]) == count % 0x1_0000
      && bs[20..] == body
  {
    var bs := MakeHeader(session, seqNo, count) + body;
    assert bs[10..18] == Put(seqNo, 8) && bs[18..20] == Put(count, 2) by { hide Put; }
    NumberPut(seqNo, 8);
    Powers();
    TwoBytes(count);
    hide Put, Number;
    assert bs[..10] == session && bs[20..] == body;
  }

  lemma {:induction false} ParseOf(session: Session, seqNo: nat, count: nat, body: seq<Byte>)
    ensures Parse(MakeHeader(session, seqNo, count) + body) ==
      var c := count % 0x1_0000; var ms := ParseBlocks(body, if c == END_OF_SESSION then 0 else c);
      if ms.None? then None
      else Some(Downstream(session, Packet(seqNo % 0x1_0000_0000_0000_0000, ms.value, c == END_OF_SESSION)))
  {
    HeaderFields(session, seqNo, count, body);
    hide Number, MakeHeader, ParseBlocks;
  }

  /**
   A packet of messages parses back to exactly these messages if and only if every message is shorter than 65536 bytes
   and there are fewer than 65535 of them.
   */
  lemma {:induction false} FrameParses(session: Session, p: Packet)
    requires !p.ended
    ensures Parse(Frame(session, p)) == Some(Downstream(session, p.(seqNo := p.seqNo % 0x1_0000_0000_0000_0000)))
      <==> Short(p.msgs) && |p.msgs| < END_OF_SESSION
  {
    var n, body := |p.msgs|, Blocks(p.msgs);
    hide MakeHeader, Parse, ParseBlocks, Blocks, Short, Put;
    ParseOf(session, p.seqNo, n, body);
    if Short(p.msgs) && n < END_OF_SESSION { BlocksParse(p.msgs); }
    var r := Parse(Frame(session, p));
    if r.Some? && !r.value.packet.ended { ParsedIsShort(body, n % 0x1_0000); }
  }

  lemma {:induction false} EndParses(session: Session, seqNo: nat)
    ensures Parse(Frame(session, Packet(seqNo, [], true)))
      == Some(Downstream(session, Packet(seqNo % 0x1_0000_0000_0000_0000, [], true)))
  {
    assert Blocks([]) == [] && ParseBlocks([], 0) == Some([]);
    hide MakeHeader, Parse, ParseBlocks, Blocks, Put;
    ParseOf(session, seqNo, END_OF_SESSION, []);
  }

  // ---------------------------------------------------------------- splitting a stream into packets

  /** The packets that are ready, the messages of the packet being filled, and the number of its first message. */
  datatype Packing = Packing(mtu: nat, start: nat, cur: seq<Payload>, ready: seq<Packet>)

  function Size(ms: seq<Payload>): nat {
    HEADER_SIZE + |Blocks(ms)|
  }

  function Flushed(k: Packing): Packing {
    if k.cur == [] then k
    else k.(start := k.start + |k.cur|, cur := [], ready := k.ready + [Packet(k.start, k.cur, false)])
  }

  function WithMessage(k: Packing, m: Payload): Packing {
    var k1 := if k.cur != [] && Size(k.cur) + 2 + |m| > k.mtu then Flushed(k) else k;
    k1.(cur := k1.cur + [m])
  }

  function AddAll(k: Packing, ms: seq<Payload>): (r: Packing)
    ensures r.mtu == k.mtu
  {
    if ms == [] then k else WithMessage(AddAll(k, ms[..|ms| - 1]), ms[|ms| - 1])
  }

  /** All messages of a stream of packets, in order. */
  function Flat(ps: seq<Packet>): seq<Payload> {
    if ps == [] then [] else Flat(ps[..|ps| - 1]) + ps[|ps| - 1].msgs
  }

  /** Every packet carries the number of its first message, and the first message of all is number 1. */
  predicate Sequenced(ps: seq<Packet>) {
    ps != [] ==> ps[|ps| - 1].seqNo == 1 + |Flat(ps[..|ps| - 1])| && Sequenced(ps[..|ps| - 1])
  }

  /** A packet exceeds the size limit only to carry a single message. */
  predicate Fits(mtu: nat, p: Packet) {
    |p.msgs| <= 1 || Size(p.msgs) <= mtu
  }

  predicate AllFit(mtu: nat, ps: seq<Packet>) {
    forall p | p in ps :: Fits(mtu, p)
  }

  lemma {:induction false} OneMore(mtu: nat, ps: seq<Packet>, p: Packet)
    requires Sequenced(ps) && AllFit(mtu, ps) && p.seqNo == 1 + |Flat(ps)| && Fits(mtu, p)
    ensures Sequenced(ps + [p]) && AllFit(mtu, ps + [p]) && Flat(ps + [p]) == Flat(ps) + p.msgs
  {
    assert (ps + [p])[..|ps|] == ps;
    hide Fits;
  }

  /**
   The stream `sent` and what is ready and being filled after it: numbered, small enough, and nothing but `ms` in
   order.
   */
  ghost predicate Packed(sent: seq<Packet>, k: Packing, ms: seq<Payload>) {
    && Sequenced(sent + k.ready) && AllFit(k.mtu, sent + k.ready)
    && k.start == 1 + |Flat(sent + k.ready)|
    && Flat(sent + k.ready) + k.cur == ms
    && (|k.cur| <= 1 || Size(k.cur) <= k.mtu)
  }

  lemma {:induction false} FlushPacks(sent: seq<Packet>, k: Packing, ms: seq<Payload>)
    requires Packed(sent, k, ms)
    ensures Packed(sent, Flushed(k), ms) && Flushed(k).cur == []
  {
    hide Sequenced, Flat, AllFit, Size;
    if k.cur != [] {
      var p := Packet(k.start, k.cur, false);
      OneMore(k.mtu, sent + k.ready, p);
      assert sent + k.ready + [p] == sent + (k.ready + [p]);
      assert ms + [] == ms;
    }
  }

  lemma {:induction false} SizeGrows(ms: seq<Payload>, m: Payload)
    ensures Size(ms + [m]) == Size(ms) + 2 + |m|
  {
    hide Blocks, Put;
    BlocksGrow(ms, m);
  }

  lemma {:induction false} AddPacks(sent: seq<Packet>, k: Packing, ms: seq<Payload>, m: Payload)
    requires Packed(sent, k, ms)
    ensures Packed(sent, WithMessage(k, m), ms + [m])
  {
    hide Sequenced, Flat, AllFit, Size, Flushed;
    FlushPacks(sent, k, ms);
    var k1 := if k.cur != [] && Size(k.cur) + 2 + |m| > k.mtu then Flushed(k) else k;
    var cur := k1.cur + [m];
    SizeGrows(k1.cur, m);
    assert Flat(sent + k1.ready) + k1.cur + [m] == Flat(sent + k1.ready) + cur;
  }

  lemma {:induction false} AllPacks(sent: seq<Packet>, k: Packing, ms: seq<Payload>, more: seq<Payload>)
    requires Packed(sent, k, ms)
    ensures Packed(sent, AddAll(k, more), ms + more)
  {
    hide Packed, WithMessage;
    if more == [] {
      assert ms + more == ms;
    } else {
      var before := more[..|more| - 1];
      AllPacks(sent, k, ms, before);
      AddPacks(sent, AddAll(k, before), ms + before, more[|more| - 1]);
      assert ms + before + [more[|more| - 1]] == ms + more;
    }
  }

  // ---------------------------------------------------------------- which size limits are safe

  predicate ParsesBack(session: Session, p: Packet) {
    Parse(Frame(session, p)) == Some(Downstream(session, p.(seqNo := p.seqNo % 0x1_0000_0000_0000_0000)))
  }

  /** The packets of a message stream. */
  function PacketsOf(mtu: nat, ms: seq<Payload>): seq<Packet> {
    Flushed(AddAll(Packing(mtu, 1, [], []), ms)).ready
  }

  ghost predicate Readable(session: Session, mtu: nat, ms: seq<Payload>) {
    forall p | p in PacketsOf(mtu, ms) :: ParsesBack(session, p)
  }

  /** The smallest size limit that lets 65535 messages into one packet. */
  const MTU_LIMIT := 20 + 2 * 65535

  lemma {:induction false} BlocksLength(ms: seq<Payload>)
    ensures |Blocks(ms)| >= 2 * |ms|
  {
    if ms != [] { BlocksLength(ms[..|ms| - 1]); }
  }

  lemma {:induction false} ShortPart(ps: seq<Packet>, p: Packet)
    requires Short(Flat(ps)) && p in ps
    ensures Short(p.msgs)
  {
    var last := ps[|ps| - 1];
    var front := Flat(ps[..|ps| - 1]);
    forall i | 0 <= i < |last.msgs| ensures |last.msgs[i]| < 0x1_0000 { assert Flat(ps)[|front| + i] == last.msgs[i]; }
    forall i | 0 <= i < |front| ensures |front[i]| < 0x1_0000 { assert Flat(ps)[i] == front[i]; }
    if p != last { ShortPart(ps[..|ps| - 1], p); }
  }

  /** A packet below the limit has room for fewer than 65535 messages. */
  lemma {:induction false} FittingCount(mtu: nat, p: Packet)
    requires Fits(mtu, p) && mtu < MTU_LIMIT
    ensures |p.msgs| < END_OF_SESSION
  {
    BlocksLength(p.msgs);
  }

  /** Below the limit every packet of a packed stream parses back. */
  lemma {:induction false} FittingParses(session: Session, mtu: nat, ps: seq<Packet>, p: Packet)
    requires AllFit(mtu, ps) && Short(Flat(ps)) && p in ps && !p.ended && mtu < MTU_LIMIT
    ensures ParsesBack(session, p) && |p.msgs| < END_OF_SESSION
  {
    ShortPart(ps, p);
    FittingCount(mtu, p);
    FrameParses(session, p);
    hide Frame, Parse, Short;
  }

  /** Packets from the packetizer never end the session. */
  lemma {:induction false} NoneEnds(k: Packing, ms: seq<Payload>)
    requires forall p | p in k.ready :: !p.ended
    ensures forall p | p in Flushed(AddAll(k, ms)).ready :: !p.ended
    ensures forall p | p in AddAll(k, ms).ready :: !p.ended
  {
    if ms != [] { NoneEnds(k, ms[..|ms| - 1]); }
  }

  /** The packets of a stream carry exactly the stream. */
  lemma {:induction false} StreamPacked(mtu: nat, ms: seq<Payload>)
    ensures var ps := PacketsOf(mtu, ms); Sequenced(ps) && AllFit(mtu, ps) && Flat(ps) == ms
  {
    var k := Packing(mtu, 1, [], []);
    var none: seq<Packet> := [];
    assert none + k.ready == [];
    assert Packed(none, k, []);
    hide AddAll, Flat, Sequenced, AllFit, Size;
    AllPacks(none, k, [], ms);
    assert [] + ms == ms;
    FlushPacks(none, AddAll(k, ms), ms);
    var ready := PacketsOf(mtu, ms);
    assert none + ready == ready && Flat(ready) + [] == Flat(ready);
  }

  function Empties(n: nat): (ms: seq<Payload>)
    ensures |ms| == n && Short(ms)
  {
    seq(n, _ => [])
  }

  lemma {:induction false} EmptiesStep(n: nat)
    ensures Empties(0) == []
    ensures n > 0 ==> Empties(n)[..n - 1] == Empties(n - 1) && Empties(n)[n - 1] == []
    ensures n > 0 ==> Empties(n - 1) + [[]] == Empties(n)
  {
  }

  lemma {:induction false} EmptiesFillUp(mtu: nat, n: nat)
    requires mtu >= 20 + 2 * n
    ensures AddAll(Packing(mtu, 1, [], []), Empties(n)) == Packing(mtu, 1, Empties(n), [])
      && Size(Empties(n)) == 20 + 2 * n
  {
    EmptiesStep(n);
    assert Blocks([]) == [];
    hide Empties, Blocks, Flushed;
    if n > 0 {
      EmptiesFillUp(mtu, n - 1);
      SizeGrows(Empties(n - 1), []);
    }
  }

  /** From the limit on there is a stream of tiny messages whose one packet reads as the end of the session. */
  lemma {:induction false} LimitFails(session: Session, mtu: nat)
    requires mtu >= MTU_LIMIT
    ensures Short(Empties(65535)) && !Readable(session, mtu, Empties(65535))
  {
    var ms := Empties(65535);
    EmptiesFillUp(mtu, 65535);
    hide AddAll, Empties;
    var p := Packet(1, ms, false);
    assert PacketsOf(mtu, ms) == [] + [p];
    FrameParses(session, p);
    assert p in PacketsOf(mtu, ms) && !ParsesBack(session, p);
  }

  /** Exactly the size limits below 131090 make every stream of short messages readable. */
  lemma {:induction false} ReadableIff(session: Session, mtu: nat)
    ensures (forall ms | Short(ms) :: Readable(session, mtu, ms)) <==> mtu < MTU_LIMIT
  {
    if mtu < MTU_LIMIT {
      forall ms, p | Short(ms) && p in PacketsOf(mtu, ms) ensures ParsesBack(session, p) {
        StreamPacked(mtu, ms);
        NoneEnds(Packing(mtu, 1, [], []), ms);
        FittingParses(session, mtu, PacketsOf(mtu, ms), p);
      }
    } else {
      LimitFails(session, mtu);
    }
  }

  // ---------------------------------------------------------------- the packetizer

  function Frames(session: Session, ps: seq<Packet>): seq<seq<Byte>> {
    if ps == [] then [] else Frames(session, ps[..|ps| - 1]) + [Frame(session, ps[|ps| - 1])]
  }

  /** The value of a 16-bit counter that counted to `n`. */
  function Low16(n: nat): nat {
    n % 0x1_0000
  }

  lemma {:induction false} CountsUp(n: nat)
    ensures Low16(Low16(n) + 1) == Low16(n + 1) && Low16(0) == 0
  {
  }

  /** The bytes of a packet that is being filled; its count is still zero. */
  function Current(session: Session, nextSeq: nat, cur: seq<Payload>): seq<Byte>
    requires nextSeq > |cur|
  {
    if cur == [] then [] else MakeHeader(session, nextSeq - |cur|, 0) + Blocks(cur)
  }

  /** A packet with one more block. */
  function Extend(bs: seq<Byte>, m: Payload): seq<Byte> {
    bs + Block(m)
  }

  lemma {:induction false} BytesGrow(session: Session, nextSeq: nat, cur: seq<Payload>, m: Payload)
    requires nextSeq > |cur|
    ensures var bs := Current(session, nextSeq, cur);
      && (bs == [] <==> cur == [])
      && Extend(if bs == [] then MakeHeader(session, nextSeq, 0) else bs, m) == Current(session, nextSeq + 1, cur + [m])
  {
    assert Blocks([]) == [];
    BlocksGrow(cur, m);
    var head, body, block := MakeHeader(session, nextSeq - |cur|, 0), Blocks(cur), Block(m);
    hide Put, Blocks, MakeHeader, Block;
    assert head + body + block == head + (body + block);
    assert cur == [] ==> head + body == head;
  }

  class Packetizer {
    const session: Session
    const mtu: nat
    var nextSeq: nat
    var current: seq<Byte>
    var currentCount: nat
    var ready: seq<seq<Byte>>
    /** The messages of the current packet and the packets that are ready. */
    ghost var cur: seq<Payload>
    ghost var done: seq<Packet>

    ghost predicate Valid()
      reads this
    {
      && nextSeq > |cur|
      && current == Current(session, nextSeq, cur)
      && currentCount == Low16(|cur|)
      && ready == Frames(session, done)
    }

    ghost function View(): Packing
      requires Valid()
      reads this
    {
      Packing(mtu, nextSeq - |cur|, cur, done)
    }

    constructor (session: Session, mtu: nat)
      ensures Valid() && View() == Packing(mtu, 1, [], []) && this.session == session
    {
      this.session, this.mtu := session, mtu;
      nextSeq, current, currentCount, ready := 1, [], 0, [];
      cur, done := [], [];
    }

    method Flush()
      requires Valid()
      modifies this
      ensures Valid() && View() == Flushed(old(View())) && nextSeq == old(nextSeq)
    {
      hide Put, Blocks;
      if current == [] { return; }
      var count := Put(currentCount, 2);
      CountSlot(session, nextSeq - |cur|, |cur|, Blocks(cur));
      var packet := current[..18] + count + current[20..];
      ghost var p := Packet(nextSeq - |cur|, cur, false);
      assert packet == Frame(session, p);
      assert (done + [p])[..|done|] == done;
      ready := ready + [packet];
      done := done + [p];
      current, currentCount, cur := [], 0, [];
    }

    method AddMessage(m: Payload)
      requires Valid()
      modifies this
      ensures Valid() && View() == WithMessage(old(View()), m) && nextSeq == old(nextSeq) + 1
    {
      hide Put, Blocks, Frames, Block, Low16;
      if current != [] && |current| + 2 + |m| > mtu { Flush(); }
      Append(m);
    }

    method Append(m: Payload)
      requires Valid()
      modifies this
      ensures Valid() && View() == old(View()).(cur := old(cur) + [m]) && nextSeq == old(nextSeq) + 1
    {
      hide Put, Blocks, Frames, MakeHeader, Low16, Current, Extend;
      BytesGrow(session, nextSeq, cur, m);
      CountsUp(|cur|);
      var bytes, count := current, currentCount;
      if current == [] {
        bytes, count := MakeHeader(session, nextSeq, 0), 0;
      }
      current, currentCount, nextSeq, cur := Extend(bytes, m), Low16(count + 1), nextSeq + 1, cur + [m];
    }

    method TakePackets() returns (packets: seq<seq<Byte>>)
      requires Valid()
      modifies this
      ensures Valid() && View() == old(View()).(ready := []) && nextSeq == old(nextSeq)
      ensures packets == Frames(session, old(View()).ready)
    {
      hide Put, Blocks, Frame;
      packets := ready;
      ready, done := [], [];
    }

    method Heartbeat() returns (packet: seq<Byte>)
      ensures packet == Frame(session, Packet(nextSeq, [], false))
    {
      packet := MakeHeader(session, nextSeq, 0);
    }

    method EndOfSession() returns (packet: seq<Byte>)
      ensures packet == Frame(session, Packet(nextSeq, [], true))
    {
      packet := MakeHeader(session, nextSeq, END_OF_SESSION);
    }
  }

  /** Writing the count into the header that was written without it; a 16-bit count is enough. */
  lemma {:induction false} CountSlot(session: Session, seqNo: nat, n: nat, body: seq<Byte>)
    ensures var bs := MakeHeader(session, seqNo, 0) + body;
      bs[..18] + Put(Low16(n), 2) + bs[20..] == MakeHeader(session, seqNo, n) + body
  {
    LowBytes(n);
    hide Put;
    var bs := MakeHeader(session, seqNo, 0) + body;
    assert bs[..18] == session + Put(seqNo, 8) && bs[20..] == body;
  }

  lemma {:induction false} LowBytes(n: nat)
    ensures Put(Low16(n), 2) == Put(n, 2)
  {
    TwoPut(n);
    TwoPut(Low16(n));
    hide Put;
    var r, c := n / 256, n % 256;
    var a, b := r / 256, r % 256;
    ModUnique(n, 0x1_0000, a, 256 * b + c);
    Halves(b, c);
  }

  lemma {:induction false} Halves(b: nat, c: nat)
    requires b < 256 && c < 256
    ensures (256 * b + c) / 256 % 256 == b && (256 * b + c) % 256 == c
  {
  }

  lemma {:induction false} TwoPut(n: nat)
    ensures Put(n, 2) == [n / 256 % 256, n % 256]
  {
    assert Put(n / 256, 1) == Put(n / 256 / 256, 0) + [n / 256 % 256];
  }

  // ---------------------------------------------------------------- gaps

  /** What the receiver expects next, and whether it ever missed something. */
  datatype Gaps = Gaps(expected: nat, hadGap: bool)

  function AfterPacket(g: Gaps, seqNo: nat, count: nat): Gaps {
    var gap := seqNo > g.expected;
    var after := (seqNo + count) % 0x1_0000_0000_0000_0000;
    Gaps(if count > 0 then (if after > g.expected then after else g.expected) else if gap then seqNo else g.expected,
         g.hadGap || gap)
  }

  class GapDetector {
    var expected: nat
    var hadGap: bool

    function State(): Gaps
      reads this
    {
      Gaps(expected, hadGap)
    }

    constructor ()
      ensures State() == Gaps(1, false)
    {
      expected, hadGap := 1, false;
    }

    method OnPacket(seqNo: nat, count: nat) returns (gap: bool)
      modifies this
      ensures State() == AfterPacket(old(State()), seqNo, count)
      ensures gap <==> seqNo > old(expected)
    {
      gap := seqNo > expected;
      if gap { hadGap := true; }
      var after := (seqNo + count) % 0x1_0000_0000_0000_0000;
      if count > 0 && after > expected { expected := after; }
      if gap && count == 0 && seqNo > expected { expected := seqNo; }
    }
  }
}
