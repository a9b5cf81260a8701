/** The bytes a session answers a login with, and the layout of its packets and of the login request. */
module SoupAnswers {
  import opened Book
  import opened Bytes
  import opened SoupFraming
  import opened SoupSession

  // ---------------------------------------------------------------- layouts

  /** A packet is its length in two bytes, high byte first, then its type, then its payload. */
  lemma {:induction false} PacketLayout(p: Packet)
    requires |p.payload| < 0xFFFF
    ensures Pack(p) == [(|p.payload| + 1) / 256, (|p.payload| + 1) % 256, p.kind] + p.payload
  {
    var n := |p.payload| + 1;
    assert Put(n, 2) == Put(n / 256, 1) + [n % 256] && Put(n / 256, 1) == Put(n / 256 / 256, 0) + [n / 256 % 256];
    assert n / 256 < 256;
  }

  /** Left-justified: the text and then spaces. */
  predicate Padded(bs: seq<Byte>, s: seq<Byte>) {
    forall i | 0 <= i < |bs| :: bs[i] == if i < |s| then s[i] else 32
  }

  /** Right-justified: spaces and then the digits of the number. */
  predicate Justified(bs: seq<Byte>, n: nat) {
    var ds := Trim(bs);
    && |ds| <= |bs| && bs[|bs| - |ds|..] == ds && (forall i | 0 <= i < |bs| - |ds| :: bs[i] == 32)
    && ds != [] && AllDigits(ds) && Value(ds) == n && (n > 0 ==> ds[0] != 48)
  }

  lemma {:induction false} SpacesAre(n: nat)
    ensures forall i | 0 <= i < n :: Spaces(n)[i] == 32
  {
    if n > 0 { SpacesAre(n - 1); }
  }

  lemma {:induction false} AlphaIsPadded(s: seq<Byte>, width: nat)
    ensures Padded(Alpha(s, width), s)
  {
    SpacesAre(width - |Field(s, width)|);
    hide Spaces;
  }

  lemma {:induction false} NoLeadingZero(n: nat)
    ensures Digits(n) != [] && (n > 0 ==> Digits(n)[0] != 48)
  {
    if n >= 10 { NoLeadingZero(n / 10); }
  }

  lemma {:induction false} SeqFieldIsJustified(n: nat)
    requires n < TWO64
    ensures |SeqField(n, 20)| == 20 && Justified(SeqField(n, 20), n)
  {
    SeqFieldBack(n);
    DigitsAre(n);
    NoLeadingZero(n);
    TwentyDigits(n);
    SpacesAre(20 - |Digits(n)|);
    hide Spaces, Digits, Trim, Value;
  }

  /** The login request: user name, password and session, padded, and the sequence number, right-justified. */
  lemma {:induction false} LoginLayout(q: LoginRequest)
    requires q.seqNo < TWO64
    ensures var bs := LoginPayload(q);
      && |bs| == 46 && Padded(bs[..6], q.username) && Padded(bs[6..16], q.password) && Padded(bs[16..26], q.session)
      && Justified(bs[26..], q.seqNo)
  {
    AlphaIsPadded(q.username, 6);
    AlphaIsPadded(q.password, 10);
    AlphaIsPadded(q.session, 10);
    SeqFieldIsJustified(q.seqNo);
    hide Padded, Justified, Alpha, SeqField;
    var a, b, c, d := Alpha(q.username, 6), Alpha(q.password, 10), Alpha(q.session, 10), SeqField(q.seqNo, 20);
    var bs := LoginPayload(q);
    assert bs == a + b + c + d;
    assert bs[..6] == a && bs[6..16] == b && bs[16..26] == c && bs[26..] == d;
  }

  // ---------------------------------------------------------------- the answer to a login

  /** The first login request among the packets. */
  function LoginIn(ps: seq<Packet>): Option<Packet> {
    if ps == [] then None else if ps[0].kind == 76 then Some(ps[0]) else LoginIn(ps[1..])
  }

  /** What goes out for it. */
  function AnswerTo(login: Option<Packet>, y: Policy): seq<Byte> {
    if login.None? then []
    else if DecodeLogin(login.value.payload).None? then Pack(Packet(LOGIN_REJECTED, [65]))
    else Pack(Packet(LOGIN_ACCEPTED, Alpha(y.name, 10) + SeqField(y.nextSeq, 20)))
  }

  /** Handling packets answers the first login request and nothing else. */
  lemma {:induction false} PumpAnswers(s: Session, y: Policy)
    ensures Pump(s, y).out
      == s.out + if s.phase.AwaitingLogin? then AnswerTo(LoginIn(PacketsIn(s.pending)), y) else []
    decreases |s.pending|
  {
    hide Next, Pack, Alpha, SeqField, DecodeLogin;
    var n := Next(s.pending);
    if s.phase != Closed && n.Some? {
      var p, rest := n.value.packet, PacketsIn(n.value.rest);
      var ps := PacketsIn(s.pending);
      assert ps == [p] + rest && ps[1..] == rest;
      PumpAnswers(HandledBy(s.(pending := n.value.rest), y, p), y);
    }
  }

  /** Accepted: the session name, padded to ten bytes, and the next sequence number, right-justified in twenty. */
  predicate Acceptance(bs: seq<Byte>, y: Policy) {
    |bs| == 33 && bs[..3] == [0, 31, 65] && Padded(bs[3..13], y.name) && Justified(bs[13..], y.nextSeq)
  }

  lemma {:induction false} AcceptanceBytes(y: Policy)
    requires y.nextSeq < TWO64
    ensures Acceptance(Pack(Packet(LOGIN_ACCEPTED, Alpha(y.name, 10) + SeqField(y.nextSeq, 20))), y)
  {
    var a, b := Alpha(y.name, 10), SeqField(y.nextSeq, 20);
    AlphaIsPadded(y.name, 10);
    SeqFieldIsJustified(y.nextSeq);
    hide Padded, Justified, Alpha, SeqField;
    PacketLayout(Packet(LOGIN_ACCEPTED, a + b));
    hide Pack;
    var bs := Pack(Packet(LOGIN_ACCEPTED, a + b));
    assert bs[3..13] == a && bs[13..] == b;
  }

  /**
   A client that sends these packets, cut in any way: the server sends nothing until the first login request; if that is
   malformed it sends a rejection, and otherwise an acceptance; and nothing more in answer to packets.
   */
  lemma {:induction false} LoginAnswered(y: Policy, now: nat, cs: seq<Chunk>, ps: seq<Packet>)
    requires Joined(cs) == PackAll(ps) && AllShort(ps) && y.nextSeq < TWO64
    ensures var out, login := OnChunks(Begin(now), y, cs).out, LoginIn(ps);
      && (login.None? ==> out == [])
      && (login.Some? && DecodeLogin(login.value.payload).None? ==> out == [0, 2, 74, 65])
      && (login.Some? && DecodeLogin(login.value.payload).Some? ==> Acceptance(out, y))
  {
    hide *;
    SessionAnswers(y, now, cs, ps);
    AnswerBytes(LoginIn(ps), y);
  }

  lemma {:induction false} SessionAnswers(y: Policy, now: nat, cs: seq<Chunk>, ps: seq<Packet>)
    requires Joined(cs) == PackAll(ps) && AllShort(ps)
    ensures OnChunks(Begin(now), y, cs).out == AnswerTo(LoginIn(ps), y)
  {
    NothingNext([]);
    hide Pump, Next, OnChunks, Joined, PackAll, PacketsIn, LoginIn, AnswerTo;
    ChunksAlike(Begin(now), y, cs);
    PumpAnswers(More(Begin(now), Joined(cs)), y);
    PacketsBack(ps);
    assert [] + PackAll(ps) == PackAll(ps) && [] + AnswerTo(LoginIn(ps), y) == AnswerTo(LoginIn(ps), y);
  }

  lemma {:induction false} AnswerBytes(login: Option<Packet>, y: Policy)
    requires y.nextSeq < TWO64
    ensures var out := AnswerTo(login, y);
      && (login.None? ==> out == [])
      && (login.Some? && DecodeLogin(login.value.payload).None? ==> out == [0, 2, 74, 65])
      && (login.Some? && DecodeLogin(login.value.payload).Some? ==> Acceptance(out, y))
  {
    hide Acceptance, DecodeLogin, Pack, Alpha, SeqField;
    PacketLayout(Packet(LOGIN_REJECTED, [65]));
    AcceptanceBytes(y);
  }

  /** Sequenced messages ('S') and the end of the session ('Z') go out in packets of their own, after any run. */
  lemma {:induction false} SendsBytes(now: nat, y: Policy, ts: seq<Step>, payload: seq<Byte>)
    requires |payload| < 0xFFFF
    ensures var out, n := RunSession(now, y, ts).out, |payload| + 1;
      && RunSession(now, y, ts + [SendSequenced(payload)]).out == out + ([n / 256, n % 256, 83] + payload)
      && RunSession(now, y, ts + [SendEnd]).out == out + [0, 1, 90]
  {
    assert (ts + [SendSequenced(payload)])[..|ts|] == ts && (ts + [SendEnd])[..|ts|] == ts;
    hide Pack;
    PacketLayout(Packet(SEQUENCED, payload));
    PacketLayout(Packet(SESSION_ENDED, []));
  }
}
