/** SoupBinTCP packets: framing, the incremental parser, and the login request. */
module SoupFraming {
  import opened Book
  import opened Bytes

  /** A type byte and a payload. */
  datatype Packet = Packet(kind: Byte, payload: seq<Byte>)

  function Pack(p: Packet): seq<Byte> {
    Put(|p.payload| + 1, 2) + [p.kind] + p.payload
  }

  function PackAll(ps: seq<Packet>): seq<Byte> {
    if ps == [] then [] else Pack(ps[0]) + PackAll(ps[1..])
  }

  datatype Taken = Taken(packet: Packet, rest: seq<Byte>)

  /** The first packet of a byte stream, once it is complete. A zero length stops the stream for good. */
  function Next(bs: seq<Byte>): (r: Option<Taken>)
    ensures r.Some? ==> |r.value.rest| < |bs|
  {
    if |bs| < 2 then None
    else
      var len := Number(bs[..2]);
      if len < 1 || |bs| < 2 + len then None
      else Some(Taken(Packet(bs[2], bs[3..2 + len]), bs[2 + len..]))
  }

  /** All complete packets of a byte stream. */
  function PacketsIn(bs: seq<Byte>): seq<Packet> {
    var n := Next(bs);
    if n.None? then [] else [n.value.packet] + PacketsIn(n.value.rest)
  }

  // ---------------------------------------------------------------- framing

  lemma {:induction false} LengthField(v: nat)
    requires v < 0x1_0000
    ensures Number(Put(v, 2)) == v
  {
    NumberPut(v, 2);
    Powers();
  }

  /** What the parser returns fits a 16-bit length. */
  lemma {:induction false} NextIsShort(bs: seq<Byte>)
    ensures Next(bs).Some? ==> |Next(bs).value.packet.payload| < 0xFFFF
  {
    if |bs| >= 2 {
      assert bs[..2][..1] == bs[..1] && bs[..1][..0] == [];
      assert Number(bs[..1]) == bs[0] && Number(bs[..2]) == 256 * Number(bs[..2][..1]) + bs[1];
    }
  }

  lemma {:induction false} NextOfPack(p: Packet, rest: seq<Byte>)
    requires |p.payload| < 0xFFFF
    ensures Next(Pack(p) + rest) == Some(Taken(p, rest))
  {
    var n, bs := |p.payload| + 1, Pack(p) + rest;
    LengthField(n);
    hide Number, Put;
    assert bs[..2] == Put(n, 2) && bs[2] == p.kind && bs[3..2 + n] == p.payload && bs[2 + n..] == rest;
  }

  lemma {:induction false} PacketsAreShort(bs: seq<Byte>)
    ensures AllShort(PacketsIn(bs))
    decreases |bs|
  {
    NextIsShort(bs);
    hide Next;
    if Next(bs).Some? { PacketsAreShort(Next(bs).value.rest); }
  }

  predicate AllShort(ps: seq<Packet>) {
    forall p | p in ps :: |p.payload| < 0xFFFF
  }

  /**
   Framing is undone by the parser if and only if every length fits its field: a stream of packed packets holds exactly
   these packets as long as no payload has 65535 bytes or more.
   */
  lemma {:induction false} PacketsBackIff(ps: seq<Packet>)
    ensures PacketsIn(PackAll(ps)) == ps <==> AllShort(ps)
  {
    PacketsAreShort(PackAll(ps));
    if AllShort(ps) { PacketsBack(ps); }
  }

  lemma {:induction false} PacketsBack(ps: seq<Packet>)
    requires AllShort(ps)
    ensures PacketsIn(PackAll(ps)) == ps
  {
    hide Pack, Next;
    if ps == [] {
      NothingNext([]);
    } else {
      assert ps[0] in ps;
      NextOfPack(ps[0], PackAll(ps[1..]));
      PacketsBack(ps[1..]);
    }
  }

  lemma {:induction false} NothingNext(bs: seq<Byte>)
    requires |bs| < 2
    ensures Next(bs).None?
  {
  }

  /** More bytes do not change a packet that is complete. */
  lemma {:induction false} NextStays(bs: seq<Byte>, more: seq<Byte>)
    requires Next(bs).Some?
    ensures Next(bs + more) == Some(Taken(Next(bs).value.packet, Next(bs).value.rest + more))
  {
    hide Number;
    var all, len := bs + more, Number(bs[..2]);
    assert all[..2] == bs[..2] && all[3..2 + len] == bs[3..2 + len] && all[2 + len..] == bs[2 + len..] + more;
  }

  // ---------------------------------------------------------------- the parser

  /** Consumed bytes stay in the buffer until they dominate it. */
  class FrameParser {
    var buf: seq<Byte>
    var consumed: nat

    predicate Valid()
      reads this
    {
      consumed <= |buf|
    }

    function Pending(): seq<Byte>
      requires Valid()
      reads this
    {
      buf[consumed..]
    }

    constructor ()
      ensures Valid() && Pending() == []
    {
      buf, consumed := [], 0;
    }

    method Push(data: seq<Byte>)
      requires Valid()
      modifies this
      ensures Valid() && Pending() == old(Pending()) + data
    {
      buf := buf + data;
    }

    method NextPacket() returns (r: Option<Packet>)
      requires Valid()
      modifies this
      ensures Valid()
      ensures var n := Next(old(Pending()));
        if n.None? then r.None? && Pending() == old(Pending())
        else r == Some(n.value.packet) && Pending() == n.value.rest
    {
      hide Number;
      var avail := |buf| - consumed;
      if avail < 2 { return None; }
      var len := Number(buf[consumed..consumed + 2]);
      assert Pending()[..2] == buf[consumed..consumed + 2];
      if len < 1 || avail < 2 + len { return None; }
      r := Some(Packet(buf[consumed + 2], buf[consumed + 3..consumed + 2 + len]));
      assert Pending()[3..2 + len] == buf[consumed + 3..consumed + 2 + len]
        && Pending()[2 + len..] == buf[consumed + 2 + len..];
      consumed := consumed + 2 + len;
      if consumed > 4096 && consumed * 2 > |buf| {
        buf := buf[consumed..];
        consumed := 0;
      }
    }
  }

  // ---------------------------------------------------------------- the login request

  const SPACE: Byte := 32
  const TWO64 := 0x1_0000_0000_0000_0000

  datatype LoginRequest = LoginRequest(username: seq<Byte>, password: seq<Byte>, session: seq<Byte>, seqNo: nat)

  function Spaces(n: nat): (bs: seq<Byte>)
    ensures |bs| == n
  {
    if n == 0 then [] else Spaces(n - 1) + [SPACE]
  }

  /** At most `width` bytes of a field. */
  function Field(s: seq<Byte>, width: nat): seq<Byte> {
    if |s| <= width then s else s[..width]
  }

  function Alpha(s: seq<Byte>, width: nat): (bs: seq<Byte>)
    ensures |bs| == width
  {
    Field(s, width) + Spaces(width - |Field(s, width)|)
  }

  function Digits(n: nat): seq<Byte> {
    if n < 10 then [48 + n] else Digits(n / 10) + [48 + n % 10]
  }

  /** Right-justified digits; more digits than the width are not cut. */
  function SeqField(n: nat, width: nat): seq<Byte> {
    var ds := Digits(n);
    Spaces(if |ds| < width then width - |ds| else 0) + ds
  }

  function LoginPayload(q: LoginRequest): seq<Byte> {
    Alpha(q.username, 6) + Alpha(q.password, 10) + Alpha(q.session, 10) + SeqField(q.seqNo, 20)
  }

  function TrimLeft(bs: seq<Byte>): seq<Byte> {
    if bs != [] && bs[0] == SPACE then TrimLeft(bs[1..]) else bs
  }

  function TrimRight(bs: seq<Byte>): seq<Byte> {
    if bs != [] && bs[|bs| - 1] == SPACE then TrimRight(bs[..|bs| - 1]) else bs
  }

  function Trim(bs: seq<Byte>): seq<Byte> {
    TrimRight(TrimLeft(bs))
  }

  predicate AllDigits(bs: seq<Byte>) {
    forall i | 0 <= i < |bs| :: 48 <= bs[i] <= 57
  }

  /** The number that digits stand for, in 64 bits. */
  function Value(bs: seq<Byte>): nat
    requires AllDigits(bs)
  {
    if bs == [] then 0 else (Value(bs[..|bs| - 1]) * 10 + bs[|bs| - 1] - 48) % TWO64
  }

  function DecodeLogin(bs: seq<Byte>): Option<LoginRequest> {
    if |bs| != 46 then None
    else
      var ds := Trim(bs[26..]);
      if !AllDigits(ds) then None
      else Some(LoginRequest(Trim(bs[..6]), Trim(bs[6..16]), Trim(bs[16..26]), Value(ds)))
  }

  method TrimField(bs: seq<Byte>) returns (r: seq<Byte>)
    ensures r == Trim(bs)
  {
    var begin, end := 0, |bs|;
    assert bs[0..] == bs;
    while begin < end && bs[begin] == SPACE
      invariant begin <= end == |bs| && TrimLeft(bs) == TrimLeft(bs[begin..])
    {
      assert bs[begin..][1..] == bs[begin + 1..];
      begin := begin + 1;
    }
    assert TrimLeft(bs) == bs[begin..] == bs[begin..end];
    while end > begin && bs[end - 1] == SPACE
      invariant begin <= end <= |bs| && TrimRight(bs[begin..]) == TrimRight(bs[begin..end])
    {
      assert bs[begin..end][..end - begin - 1] == bs[begin..end - 1];
      end := end - 1;
    }
    r := bs[begin..end];
  }

  method ReadLogin(bs: seq<Byte>) returns (r: Option<LoginRequest>)
    ensures r == DecodeLogin(bs)
  {
    hide Trim;
    if |bs| != 46 { return None; }
    var username := TrimField(bs[..6]);
    var password := TrimField(bs[6..16]);
    var session := TrimField(bs[16..26]);
    var ds := TrimField(bs[26..]);
    var seqNo, i := 0, 0;
    assert ds[..|ds|] == ds;
    while i < |ds|
      invariant i <= |ds| && AllDigits(ds[..i]) && seqNo == Value(ds[..i])
    {
      if ds[i] < 48 || ds[i] > 57 { return None; }
      assert ds[..i + 1][..i] == ds[..i];
      seqNo := (seqNo * 10 + ds[i] - 48) % TWO64;
      i := i + 1;
    }
    r := Some(LoginRequest(username, password, session, seqNo));
  }

  // ---------------------------------------------------------------- the login round trip

  lemma {:induction false} SpacesTrimRight(x: seq<Byte>, n: nat)
    ensures TrimRight(x + Spaces(n)) == TrimRight(x)
  {
    if n == 0 {
      assert x + Spaces(0) == x;
    } else {
      var all := x + Spaces(n);
      assert all[..|all| - 1] == x + Spaces(n - 1);
      SpacesTrimRight(x, n - 1);
    }
  }

  lemma {:induction false} SpacesTrimLeft(n: nat, x: seq<Byte>)
    ensures TrimLeft(Spaces(n) + x) == TrimLeft(x)
  {
    if n == 0 {
      assert Spaces(0) + x == x;
    } else {
      SpacesTrimLeft(n - 1, [SPACE] + x);
      assert Spaces(n) + x == Spaces(n - 1) + ([SPACE] + x);
      assert ([SPACE] + x)[1..] == x;
    }
  }

  lemma {:induction false} TrimPadded(x: seq<Byte>, n: nat)
    ensures Trim(x + Spaces(n)) == Trim(x)
  {
    if x == [] {
      SpacesTrimLeft(n, []);
      assert x + Spaces(n) == Spaces(n) == Spaces(n) + [];
    } else if x[0] == SPACE {
      assert (x + Spaces(n))[1..] == x[1..] + Spaces(n);
      TrimPadded(x[1..], n);
    } else {
      SpacesTrimRight(x, n);
    }
  }

  lemma {:induction false} DigitsAre(n: nat)
    ensures |Digits(n)| > 0 && AllDigits(Digits(n)) && (n < TWO64 ==> Value(Digits(n)) == n)
  {
    var ds := Digits(n);
    if n < 10 {
      assert ds[..0] == [];
    } else {
      DigitsAre(n / 10);
      assert ds[..|ds| - 1] == Digits(n / 10);
      assert n / 10 * 10 + n % 10 == n;
    }
  }

  function Pow10(k: nat): nat {
    if k == 0 then 1 else 10 * Pow10(k - 1)
  }

  lemma {:induction false} DigitCount(n: nat, k: nat)
    requires k > 0 && n < Pow10(k)
    ensures |Digits(n)| <= k
  {
    if n >= 10 { DigitCount(n / 10, k - 1); }
  }

  /** A 64-bit number has at most twenty digits. */
  lemma {:induction false} TwentyDigits(n: nat)
    requires n < TWO64
    ensures |Digits(n)| <= 20
  {
    assert Pow10(5) == 100000 by { assert Pow10(3) == 1000; }
    assert Pow10(10) == 100000 * 100000 by { assert Pow10(8) == 1000 * Pow10(5); }
    assert Pow10(15) == 100000 * Pow10(10) by { assert Pow10(13) == 1000 * Pow10(10); }
    assert Pow10(20) == 100000 * Pow10(15) by { assert Pow10(18) == 1000 * Pow10(15); }
    DigitCount(n, 20);
  }

  lemma {:induction false} SeqFieldBack(n: nat)
    requires n < TWO64
    ensures |SeqField(n, 20)| == 20 && Trim(SeqField(n, 20)) == Digits(n)
  {
    TwentyDigits(n);
    DigitsAre(n);
    hide Digits, Value;
    var ds := Digits(n);
    SpacesTrimLeft(20 - |ds|, ds);
  }

  /** A login request reads back, up to the field widths and the padding that no reader can tell from the field. */
  lemma {:induction false} LoginRoundTrip(q: LoginRequest)
    requires q.seqNo < TWO64
    ensures DecodeLogin(LoginPayload(q)) == Some(LoginRequest(
      Trim(Field(q.username, 6)), Trim(Field(q.password, 10)), Trim(Field(q.session, 10)), q.seqNo))
  {
    var bs := LoginPayload(q);
    SeqFieldBack(q.seqNo);
    DigitsAre(q.seqNo);
    TrimPadded(Field(q.username, 6), 6 - |Field(q.username, 6)|);
    TrimPadded(Field(q.password, 10), 10 - |Field(q.password, 10)|);
    TrimPadded(Field(q.session, 10), 10 - |Field(q.session, 10)|);
    hide Trim, Spaces, Digits, Value, SeqField, Field, AllDigits;
    var a, b, c, d := Alpha(q.username, 6), Alpha(q.password, 10), Alpha(q.session, 10), SeqField(q.seqNo, 20);
    hide Alpha;
    assert bs[..6] == a && bs[6..16] == b && bs[16..26] == c && bs[26..] == d;
  }
}
