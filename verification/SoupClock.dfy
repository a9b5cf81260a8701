/** What the clock does to a session, told from the steps of its run alone. */
module SoupClock {
  import opened Bytes
  import opened SoupFraming
  import opened SoupSession

  predicate HasTime(t: Step) {
    t.Receive? || t.Clock?
  }

  /** The run starts at `now`, its times do not decrease, and they are 64-bit numbers. */
  predicate InOrder(now: nat, ts: seq<Step>) {
    && now < TWO64
    && (forall i | 0 <= i < |ts| && HasTime(ts[i]) :: now <= ts[i].at < TWO64)
    && (forall i, j | 0 <= i < j < |ts| && HasTime(ts[i]) && HasTime(ts[j]) :: ts[i].at <= ts[j].at)
  }

  /** When bytes last came in, or the start of the run. */
  function LastHeard(now: nat, ts: seq<Step>): nat {
    if ts == [] then now
    else if ts[|ts| - 1].Receive? then ts[|ts| - 1].at
    else LastHeard(now, ts[..|ts| - 1])
  }

  /** When the clock last made the session send something, or the start of the run. */
  function LastBeat(now: nat, y: Policy, ts: seq<Step>): nat {
    if ts == [] then now
    else
      var t, before := ts[|ts| - 1], ts[..|ts| - 1];
      if t.Clock? && RunSession(now, y, ts).out != RunSession(now, y, before).out then t.at
      else LastBeat(now, y, before)
  }

  lemma {:induction false} PumpKeepsTimes(s: Session, y: Policy)
    ensures Pump(s, y).lastRecv == s.lastRecv && Pump(s, y).lastSend == s.lastSend
    decreases |s.pending|
  {
    hide Next, Pack, Alpha, SeqField, DecodeLogin;
    var n := Next(s.pending);
    if s.phase != Closed && n.Some? { PumpKeepsTimes(HandledBy(s.(pending := n.value.rest), y, n.value.packet), y); }
  }

  lemma {:induction false} BeatIsThree()
    ensures Pack(Packet(SERVER_HEARTBEAT, [])) == [0, 1, 72]
  {
    assert Put(1, 2) == Put(0, 1) + [1] && Put(0, 1) == Put(0, 0) + [0];
  }

  /** What one step does to the two clocks. */
  lemma {:induction false} StepTimes(s: Session, y: Policy, t: Step)
    ensures var s' := After(s, y, t);
      && (s'.phase != Closed ==> s.phase != Closed && s'.lastRecv == if t.Receive? then t.at else s.lastRecv)
      && s'.lastSend == if t.Clock? && s'.out != s.out then t.at else s.lastSend
  {
    BeatIsThree();
    if t.Receive? && s.phase != Closed { PumpKeepsTimes(s.(pending := s.pending + t.data, lastRecv := t.at), y); }
    hide Pack, Pump, Since;
  }

  /** The session's own clocks say when it last heard something and when it last sent a heartbeat. */
  lemma {:induction false} ClocksAreRight(now: nat, y: Policy, ts: seq<Step>)
    ensures var s := RunSession(now, y, ts);
      && (s.phase != Closed ==> s.lastRecv == LastHeard(now, ts))
      && s.lastSend == LastBeat(now, y, ts)
  {
    hide After;
    if ts != [] {
      ClocksAreRight(now, y, ts[..|ts| - 1]);
      StepTimes(RunSession(now, y, ts[..|ts| - 1]), y, ts[|ts| - 1]);
    }
  }

  lemma {:induction false} EarlierTimes(now: nat, y: Policy, ts: seq<Step>, at: nat)
    requires now <= at && forall i | 0 <= i < |ts| && HasTime(ts[i]) :: ts[i].at <= at
    ensures LastHeard(now, ts) <= at && LastBeat(now, y, ts) <= at
  {
    hide RunSession;
    if ts != [] { EarlierTimes(now, y, ts[..|ts| - 1], at); }
  }

  lemma {:induction false} Elapsed(now: nat, last: nat)
    requires last <= now < TWO64
    ensures Since(now, last) == now - last
  {
  }

  /**
   The clock, in every run whose times do not decrease. An open session that has heard nothing for fifteen seconds is
   closed, and its listener is told. Otherwise, a logged-in session that has sent no heartbeat for a second sends
   exactly one. In all other cases the clock changes nothing. A session is logged in once its listener was asked about
   a login and until it is told of the end.
   */
  lemma {:induction false} ClockStep(now: nat, y: Policy, ts: seq<Step>, at: nat)
    requires InOrder(now, ts + [Clock(at)])
    ensures var s, s' := RunSession(now, y, ts), RunSession(now, y, ts + [Clock(at)]);
      && (s.phase == LoggedIn <==> s.log != [] && !Over(s.log[|s.log| - 1]))
      && s'.pending == s.pending
      && if s.phase != Closed && at - LastHeard(now, ts) >= 15_000_000_000 then
           s'.phase == Closed && s'.log == s.log + [TimedOut] && s'.out == s.out
         else if s.phase == LoggedIn && at - LastBeat(now, y, ts) >= 1_000_000_000 then
           s'.phase == LoggedIn && s'.log == s.log && s'.out == s.out + [0, 1, 72]
         else
           s' == s
  {
    hide *;
    ClockIsTick(now, y, ts, at);
    LoggedInIs(now, y, ts);
    ClocksAreRight(now, y, ts);
    EarlierTimes(now, y, ts, at);
    TickIs(RunSession(now, y, ts), at);
  }

  lemma {:induction false} ClockIsTick(now: nat, y: Policy, ts: seq<Step>, at: nat)
    requires InOrder(now, ts + [Clock(at)])
    ensures now <= at < TWO64 && forall i | 0 <= i < |ts| && HasTime(ts[i]) :: ts[i].at <= at
    ensures RunSession(now, y, ts + [Clock(at)]) == TickedBy(RunSession(now, y, ts), at)
  {
    hide TickedBy;
    var ts' := ts + [Clock(at)];
    assert ts'[|ts|] == Clock(at) && ts'[..|ts|] == ts;
    forall i | 0 <= i < |ts| && HasTime(ts[i]) ensures ts[i].at <= at { assert ts'[i] == ts[i]; }
  }

  lemma {:induction false} LoggedInIs(now: nat, y: Policy, ts: seq<Step>)
    ensures var s := RunSession(now, y, ts); s.phase == LoggedIn <==> s.log != [] && !Over(s.log[|s.log| - 1])
  {
    hide RunSession, Orderly;
    RunsAreOrderly(now, y, ts);
  }

  lemma {:induction false} TickIs(s: Session, at: nat)
    requires at < TWO64 && s.lastSend <= at && (s.phase != Closed ==> s.lastRecv <= at)
    ensures var s' := TickedBy(s, at);
      && s'.pending == s.pending
      && if s.phase != Closed && at - s.lastRecv >= 15_000_000_000 then
           s'.phase == Closed && s'.log == s.log + [TimedOut] && s'.out == s.out
         else if s.phase == LoggedIn && at - s.lastSend >= 1_000_000_000 then
           s'.phase == LoggedIn && s'.log == s.log && s'.out == s.out + [0, 1, 72]
         else
           s' == s
  {
    hide Pack, Since;
    BeatIsThree();
    Elapsed(at, s.lastSend);
    if s.phase != Closed { Elapsed(at, s.lastRecv); }
  }
}
