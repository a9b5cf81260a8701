/** The server side of a SoupBinTCP session, with a listener that accepts every login. */
module SoupSession {
  import opened Bytes
  import opened SoupFraming

  const LOGIN_REQUEST: Byte := 76
  const LOGIN_ACCEPTED: Byte := 65
  const LOGIN_REJECTED: Byte := 74
  const SEQUENCED: Byte := 83
  const UNSEQUENCED: Byte := 85
  const SERVER_HEARTBEAT: Byte := 72
  const LOGOUT_REQUEST: Byte := 79
  const SESSION_ENDED: Byte := 90
  const HEARTBEAT_NS := 1_000_000_000
  const TIMEOUT_NS := 15_000_000_000

  datatype Phase = AwaitingLogin | LoggedIn | Closed

  /** What the listener is told. */
  datatype Callback = LoginAsked(req: LoginRequest) | Unsequenced(payload: seq<Byte>) | LoggedOut | TimedOut

  /** The session name and first sequence number that the listener accepts logins with. */
  datatype Policy = Policy(name: seq<Byte>, nextSeq: nat)

  datatype Session = Session(phase: Phase, pending: seq<Byte>, out: seq<Byte>, log: seq<Callback>, lastRecv: nat,
      lastSend: nat)

  function Begin(now: nat): Session {
    Session(AwaitingLogin, [], [], [], now, now)
  }

  function Queue(s: Session, p: Packet): Session {
    s.(out := s.out + Pack(p))
  }

  function AcceptLogin(s: Session, y: Policy): Session {
    Queue(s, Packet(LOGIN_ACCEPTED, Alpha(y.name, 10) + SeqField(y.nextSeq, 20))).(phase := LoggedIn)
  }

  function RejectLogin(s: Session, reason: Byte): Session {
    Queue(s, Packet(LOGIN_REJECTED, [reason])).(phase := Closed)
  }

  function Tell(s: Session, c: Callback): Session {
    s.(log := s.log + [c])
  }

  function HandledBy(s: Session, y: Policy, p: Packet): (r: Session)
    ensures r.pending == s.pending
  {
    match s.phase
    case AwaitingLogin =>
      if p.kind != LOGIN_REQUEST then s
      else
        var req := DecodeLogin(p.payload);
        if req.None? then RejectLogin(s, 65) else AcceptLogin(Tell(s, LoginAsked(req.value)), y)
    case LoggedIn =>
      if p.kind == UNSEQUENCED then Tell(s, Unsequenced(p.payload))
      else if p.kind == LOGOUT_REQUEST then Tell(s.(phase := Closed), LoggedOut)
      else s
    case Closed => s
  }

  /** Handles the complete packets that are pending, until the session closes. */
  function Pump(s: Session, y: Policy): Session
    decreases |s.pending|
  {
    var n := Next(s.pending);
    if s.phase == Closed || n.None? then s
    else Pump(HandledBy(s.(pending := n.value.rest), y, n.value.packet), y)
  }

  function ReceivedBy(s: Session, y: Policy, data: seq<Byte>, now: nat): Session {
    if s.phase == Closed then s else Pump(s.(pending := s.pending + data, lastRecv := now), y)
  }

  /** Elapsed time in 64 bits. */
  function Since(now: nat, last: nat): nat {
    (now - last) % TWO64
  }

  function TickedBy(s: Session, now: nat): Session {
    if s.phase == Closed then s
    else if Since(now, s.lastRecv) >= TIMEOUT_NS then Tell(s.(phase := Closed), TimedOut)
    else if s.phase == LoggedIn && Since(now, s.lastSend) >= HEARTBEAT_NS then
      Queue(s, Packet(SERVER_HEARTBEAT, [])).(lastSend := now)
    else s
  }

  // ---------------------------------------------------------------- chunks do not matter

  /** Same phase, same output, same callbacks; the same unread bytes as long as the session is open. */
  predicate Alike(s: Session, t: Session) {
    && s.phase == t.phase && s.out == t.out && s.log == t.log
    && (s.phase != Closed ==> s.pending == t.pending)
  }

  function More(s: Session, data: seq<Byte>): Session {
    s.(pending := s.pending + data)
  }

  /** Times do not matter to what packets do. */
  lemma {:induction false} PumpIgnoresTime(s: Session, y: Policy, now: nat)
    ensures Pump(s.(lastRecv := now), y) == Pump(s, y).(lastRecv := now)
    decreases |s.pending|
  {
    hide Next, Pack, Alpha, SeqField, DecodeLogin;
    var n := Next(s.pending);
    if s.phase != Closed && n.Some? {
      var s1, p := s.(pending := n.value.rest), n.value.packet;
      assert HandledBy(s1.(lastRecv := now), y, p) == HandledBy(s1, y, p).(lastRecv := now);
      PumpIgnoresTime(HandledBy(s1, y, p), y, now);
    }
  }

  lemma {:induction false} OnPacketMore(s: Session, y: Policy, p: Packet, data: seq<Byte>)
    ensures HandledBy(More(s, data), y, p) == More(HandledBy(s, y, p), data)
  {
    hide Pack, Alpha, SeqField, DecodeLogin;
  }

  /** Handling what is there and then the rest is the same as handling all at once. */
  lemma {:induction false} PumpInParts(s: Session, y: Policy, data: seq<Byte>)
    ensures Alike(Pump(More(Pump(s, y), data), y), Pump(More(s, data), y))
    decreases |s.pending|
  {
    var n := Next(s.pending);
    if s.phase != Closed && n.Some? {
      NextStays(s.pending, data);
      var s1, p := s.(pending := n.value.rest), n.value.packet;
      OnPacketMore(s1, y, p, data);
      hide Next, HandledBy;
      PumpInParts(HandledBy(s1, y, p), y, data);
      assert More(s, data).(pending := n.value.rest + data) == More(s1, data);
    } else if s.phase == Closed {
      hide Next, HandledBy;
    }
  }

  lemma {:induction false} PumpAlike(s: Session, t: Session, y: Policy)
    requires Alike(s, t)
    ensures Alike(Pump(s, y), Pump(t, y))
    decreases |s.pending|
  {
    hide Next, HandledBy;
    var n := Next(s.pending);
    if s.phase != Closed && n.Some? {
      OnPacketAlike(s.(pending := n.value.rest), t.(pending := n.value.rest), y, n.value.packet);
      PumpAlike(HandledBy(s.(pending := n.value.rest), y, n.value.packet),
        HandledBy(t.(pending := n.value.rest), y, n.value.packet), y);
    }
  }

  lemma {:induction false} OnPacketAlike(s: Session, t: Session, y: Policy, p: Packet)
    requires Alike(s, t)
    ensures Alike(HandledBy(s, y, p), HandledBy(t, y, p))
  {
    hide Pack, Alpha, SeqField, DecodeLogin;
  }

  datatype Chunk = Chunk(data: seq<Byte>, now: nat)

  function OnChunks(s: Session, y: Policy, cs: seq<Chunk>): Session {
    if cs == [] then s else ReceivedBy(OnChunks(s, y, cs[..|cs| - 1]), y, cs[|cs| - 1].data, cs[|cs| - 1].now)
  }

  function Joined(cs: seq<Chunk>): seq<Byte> {
    if cs == [] then [] else Joined(cs[..|cs| - 1]) + cs[|cs| - 1].data
  }

  lemma {:induction false} OnBytesAlike(s: Session, y: Policy, data: seq<Byte>, now: nat)
    ensures Alike(ReceivedBy(s, y, data, now), Pump(More(s, data), y))
  {
    hide Next, HandledBy;
    if s.phase != Closed { PumpIgnoresTime(More(s, data), y, now); }
  }

  /** However the bytes are cut and whenever the pieces arrive, the session ends up as if they came in one piece. */
  lemma {:induction false} ChunksAlike(s: Session, y: Policy, cs: seq<Chunk>)
    requires Next(s.pending).None?
    ensures Alike(OnChunks(s, y, cs), Pump(More(s, Joined(cs)), y))
  {
    hide HandledBy;
    if cs == [] {
      assert s.pending + [] == s.pending;
    } else {
      hide Next;
      var before, c := cs[..|cs| - 1], cs[|cs| - 1];
      ChunksAlike(s, y, before);
      var t, u := OnChunks(s, y, before), Pump(More(s, Joined(before)), y);
      OnBytesAlike(t, y, c.data, c.now);
      PumpAlike(More(t, c.data), More(u, c.data), y);
      PumpInParts(More(s, Joined(before)), y, c.data);
      assert More(More(s, Joined(before)), c.data) == More(s, Joined(cs)) by {
        assert s.pending + Joined(before) + c.data == s.pending + (Joined(before) + c.data);
      }
    }
  }

  /** Callbacks and output depend on the concatenated bytes alone. */
  lemma {:induction false} ChunkingIsInvisible(y: Policy, now: nat, cs: seq<Chunk>, ds: seq<Chunk>)
    requires Joined(cs) == Joined(ds)
    ensures var s, t := OnChunks(Begin(now), y, cs), OnChunks(Begin(now), y, ds);
      s.log == t.log && s.out == t.out && s.phase == t.phase
  {
    NothingNext([]);
    hide Pump, Next, OnChunks, Joined;
    ChunksAlike(Begin(now), y, cs);
    ChunksAlike(Begin(now), y, ds);
  }

  // ---------------------------------------------------------------- what a byte stream means

  /** What the listener hears of a logged-in client: its messages ('U'), up to the logout ('O'). */
  function Talk(ps: seq<Packet>): seq<Callback> {
    if ps == [] then []
    else if ps[0].kind == 85 then [Unsequenced(ps[0].payload)] + Talk(ps[1..])
    else if ps[0].kind == 79 then [LoggedOut]
    else Talk(ps[1..])
  }

  /** Nothing counts before the first login request ('L'); if that is malformed, nothing counts at all. */
  function Meaning(ps: seq<Packet>): seq<Callback> {
    if ps == [] then []
    else if ps[0].kind != 76 then Meaning(ps[1..])
    else
      var req := DecodeLogin(ps[0].payload);
      if req.None? then [] else [LoginAsked(req.value)] + Talk(ps[1..])
  }

  lemma {:induction false} PumpMeans(s: Session, y: Policy)
    ensures Pump(s, y).log == s.log + match s.phase
      case AwaitingLogin => Meaning(PacketsIn(s.pending))
      case LoggedIn => Talk(PacketsIn(s.pending))
      case Closed => []
    decreases |s.pending|
  {
    hide Next, Pack, Alpha, SeqField, DecodeLogin;
    var n := Next(s.pending);
    if s.phase != Closed && n.Some? {
      var p, rest := n.value.packet, PacketsIn(n.value.rest);
      var ps := PacketsIn(s.pending);
      assert ps == [p] + rest && ps[1..] == rest;
      var s1 := HandledBy(s.(pending := n.value.rest), y, p);
      PumpMeans(s1, y);
      var told := if s1.phase == LoggedIn then Talk(rest) else if s1.phase == AwaitingLogin then Meaning(rest) else [];
      assert Pump(s, y).log == s1.log + told;
      if s1.log != s.log {
        var c := s1.log[|s.log|];
        assert s1.log == s.log + [c];
        assert s.log + [c] + told == s.log + ([c] + told);
      }
    }
  }

  /**
   A client that sends these packets, cut into chunks in any way: the listener hears the login, the messages after it
   and the logout, and nothing else.
   */
  lemma {:induction false} SessionMeans(y: Policy, now: nat, cs: seq<Chunk>, ps: seq<Packet>)
    requires Joined(cs) == PackAll(ps) && AllShort(ps)
    ensures OnChunks(Begin(now), y, cs).log == Meaning(ps)
  {
    NothingNext([]);
    hide Pump, Next, OnChunks, Joined, PackAll, PacketsIn, Meaning, Talk;
    ChunksAlike(Begin(now), y, cs);
    PumpMeans(More(Begin(now), Joined(cs)), y);
    PacketsBack(ps);
    assert [] + PackAll(ps) == PackAll(ps) && [] + Meaning(ps) == Meaning(ps);
  }

  // ---------------------------------------------------------------- every run

  datatype Step =
    | Receive(data: seq<Byte>, at: nat)
    | Clock(at: nat)
    | SendSequenced(payload: seq<Byte>)
    | SendEnd

  function After(s: Session, y: Policy, t: Step): Session {
    match t
    case Receive(data, at) => ReceivedBy(s, y, data, at)
    case Clock(at) => TickedBy(s, at)
    case SendSequenced(payload) => Queue(s, Packet(SEQUENCED, payload))
    case SendEnd => Queue(s, Packet(SESSION_ENDED, []))
  }

  function RunSession(now: nat, y: Policy, ts: seq<Step>): Session {
    if ts == [] then Begin(now) else After(RunSession(now, y, ts[..|ts| - 1]), y, ts[|ts| - 1])
  }

  predicate Over(c: Callback) {
    c.LoggedOut? || c.TimedOut?
  }

  /** A message comes after a login, a login comes first, and nothing comes after the end. */
  predicate OrderlyAt(log: seq<Callback>, i: nat)
    requires i < |log|
  {
    && (log[i].Unsequenced? ==> i > 0 && log[0].LoginAsked?)
    && (log[i].LoginAsked? ==> i == 0)
    && (Over(log[i]) ==> i == |log| - 1)
  }

  predicate Orderly(log: seq<Callback>) {
    forall i | 0 <= i < |log| :: OrderlyAt(log, i)
  }

  /** The callbacks so far are orderly, and the phase says how far they got. */
  ghost predicate InPhase(s: Session) {
    && Orderly(s.log)
    && (s.phase.AwaitingLogin? ==> s.log == [])
    && (s.phase.LoggedIn? ==> s.log != [] && s.log[0].LoginAsked? && !Over(s.log[|s.log| - 1]))
    && (s.phase.Closed? ==> s.log == [] || Over(s.log[|s.log| - 1]))
  }

  lemma {:induction false} TellKeeps(log: seq<Callback>, c: Callback)
    requires Orderly(log) && (log != [] ==> log[0].LoginAsked? && !Over(log[|log| - 1]))
    requires (c.Unsequenced? ==> log != []) && (c.LoginAsked? ==> log == [])
    ensures Orderly(log + [c])
  {
    var log' := log + [c];
    forall i | 0 <= i < |log'| ensures OrderlyAt(log', i) {
      if i < |log| { assert OrderlyAt(log, i) && log'[i] == log[i]; }
    }
  }

  lemma {:induction false} PacketKeeps(s: Session, y: Policy, p: Packet)
    requires InPhase(s)
    ensures InPhase(HandledBy(s, y, p))
  {
    hide Pack, Alpha, SeqField, DecodeLogin, Orderly;
    var r := HandledBy(s, y, p);
    if r.log != s.log {
      TellKeeps(s.log, r.log[|r.log| - 1]);
    }
  }

  lemma {:induction false} PumpKeeps(s: Session, y: Policy)
    requires InPhase(s)
    ensures InPhase(Pump(s, y))
    decreases |s.pending|
  {
    hide Next, HandledBy, InPhase;
    var n := Next(s.pending);
    if s.phase != Closed && n.Some? {
      PhaseOnly(s, s.(pending := n.value.rest));
      PacketKeeps(s.(pending := n.value.rest), y, n.value.packet);
      PumpKeeps(HandledBy(s.(pending := n.value.rest), y, n.value.packet), y);
    }
  }

  lemma {:induction false} PhaseOnly(s: Session, t: Session)
    requires InPhase(s) && s.phase == t.phase && s.log == t.log
    ensures InPhase(t)
  {
  }

  lemma {:induction false} StepKeeps(s: Session, y: Policy, t: Step)
    requires InPhase(s)
    ensures InPhase(After(s, y, t))
  {
    hide Pack, Pump, Orderly, Since;
    match t {
      case Receive(data, at) =>
        if s.phase != Closed {
          PhaseOnly(s, s.(pending := s.pending + data, lastRecv := at));
          PumpKeeps(s.(pending := s.pending + data, lastRecv := at), y);
        }
      case Clock(at) => if s.phase != Closed { TellKeeps(s.log, TimedOut); }
      case SendSequenced(payload) =>
      case SendEnd =>
    }
  }

  /** In every run: no message is delivered before a login or after the close, and at most one login is asked for. */
  lemma {:induction false} RunsAreOrderly(now: nat, y: Policy, ts: seq<Step>)
    ensures InPhase(RunSession(now, y, ts))
  {
    hide After;
    if ts != [] {
      RunsAreOrderly(now, y, ts[..|ts| - 1]);
      StepKeeps(RunSession(now, y, ts[..|ts| - 1]), y, ts[|ts| - 1]);
    }
  }

  /** A closed session stays closed and tells its listener nothing more. */
  lemma {:induction false} ClosedForGood(now: nat, y: Policy, ts: seq<Step>, more: seq<Step>)
    requires RunSession(now, y, ts).phase == Closed
    ensures var s := RunSession(now, y, ts + more); s.phase == Closed && s.log == RunSession(now, y, ts).log
  {
    hide Pump, Pack;
    if more == [] {
      assert ts + more == ts;
    } else {
      assert (ts + more)[..|ts + more| - 1] == ts + more[..|more| - 1];
      ClosedForGood(now, y, ts, more[..|more| - 1]);
    }
  }

  // ---------------------------------------------------------------- the class

  class ServerSession {
    const parser: FrameParser
    const policy: Policy
    var phase: Phase
    var out: seq<Byte>
    var log: seq<Callback>
    var lastRecv: nat
    var lastSend: nat

    predicate Valid()
      reads this, parser
    {
      parser.Valid()
    }

    function View(): Session
      requires Valid()
      reads this, parser
    {
      Session(phase, parser.Pending(), out, log, lastRecv, lastSend)
    }

    constructor (policy: Policy, now: nat)
      ensures Valid() && fresh(parser) && View() == Begin(now) && this.policy == policy
    {
      parser := new FrameParser();
      this.policy := policy;
      phase, out, log, lastRecv, lastSend := AwaitingLogin, [], [], now, now;
    }

    method OnPacket(p: Packet)
      requires Valid()
      modifies this
      ensures Valid() && View() == HandledBy(old(View()), policy, p)
    {
      hide Pack, DecodeLogin, Alpha, SeqField;
      if phase == AwaitingLogin {
        if p.kind == LOGIN_REQUEST {
          var req := ReadLogin(p.payload);
          if req.Some? {
            log := log + [LoginAsked(req.value)];
            out := out + Pack(Packet(LOGIN_ACCEPTED, Alpha(policy.name, 10) + SeqField(policy.nextSeq, 20)));
            phase := LoggedIn;
          } else {
            out := out + Pack(Packet(LOGIN_REJECTED, [65]));
            phase := Closed;
          }
        }
      } else if phase == LoggedIn {
        if p.kind == UNSEQUENCED {
          log := log + [Unsequenced(p.payload)];
        } else if p.kind == LOGOUT_REQUEST {
          phase := Closed;
          log := log + [LoggedOut];
        }
      }
    }

    method OnBytes(data: seq<Byte>, now: nat)
      requires Valid()
      modifies this, parser
      ensures Valid() && View() == ReceivedBy(old(View()), policy, data, now)
    {
      hide Next, HandledBy;
      if phase == Closed { return; }
      lastRecv := now;
      parser.Push(data);
      ghost var goal := Pump(View(), policy);
      var pkt := parser.NextPacket();
      while pkt.Some?
        invariant Valid() && phase != Closed
        invariant goal == if pkt.None? then View() else Pump(HandledBy(View(), policy, pkt.value), policy)
        invariant pkt.None? ==> Next(parser.Pending()).None?
        decreases if pkt.None? then 0 else 1 + |parser.Pending()|
      {
        OnPacket(pkt.value);
        if phase == Closed { return; }
        pkt := parser.NextPacket();
      }
    }

    method Tick(now: nat)
      requires Valid()
      modifies this
      ensures Valid() && View() == TickedBy(old(View()), now)
    {
      hide Pack;
      if phase == Closed { return; }
      if Since(now, lastRecv) >= TIMEOUT_NS {
        phase := Closed;
        log := log + [TimedOut];
        return;
      }
      if phase == LoggedIn && Since(now, lastSend) >= HEARTBEAT_NS {
        out := out + Pack(Packet(SERVER_HEARTBEAT, []));
        lastSend := now;
      }
    }
  }
}
