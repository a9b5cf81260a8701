/**
 The threads behind the engine and the feed: who drains which queue when, and what has been handled by the time a loop
 ends. Pushes, the stop request and the steps of a loop interleave in any way.
 */
module RunLoops {
  import opened Book
  import opened SpscRing

  // ---------------------------------------------------------------- the mutex-guarded queue

  /** What is queued, everything ever pushed, and how much of it had been pushed when the stop request came. */
  datatype Queue<T> = Queue(items: seq<T>, pushed: seq<T>, mark: Option<nat>)

  function NewQueue<T>(): Queue<T> {
    Queue([], [], None)
  }

  function Pushed<T>(q: Queue<T>, v: T): Queue<T> {
    q.(items := q.items + [v], pushed := q.pushed + [v])
  }

  function Drained<T>(q: Queue<T>): Queue<T> {
    q.(items := [])
  }

  function Stopped<T>(q: Queue<T>): Queue<T> {
    if q.mark.None? then q.(mark := Some(|q.pushed|)) else q
  }

  /** The values that were pushed before the stop request. */
  function BeforeStop<T>(q: Queue<T>): seq<T>
    requires q.mark.Some? && q.mark.value <= |q.pushed|
  {
    q.pushed[..q.mark.value]
  }

  /** Each method body is what the source does while it holds the lock, so each is one step of the loops below. */
  class MpscQueue<T> {
    var items: seq<T>
    var stopped: bool
    ghost var pushed: seq<T>
    ghost var mark: Option<nat>

    ghost function View(): Queue<T>
      reads this
    {
      Queue(items, pushed, mark)
    }

    /** What is queued is the end of what was pushed. */
    ghost predicate Valid()
      reads this
    {
      && |items| <= |pushed| && items == pushed[|pushed| - |items|..]
      && (stopped <==> mark.Some?) && (stopped ==> mark.value <= |pushed|)
    }

    constructor ()
      ensures Valid() && View() == NewQueue()
    {
      items, stopped, pushed, mark := [], false, [], None;
    }

    method Push(v: T)
      requires Valid()
      modifies this
      ensures Valid() && View() == Pushed(old(View()), v)
    {
      items := items + [v];
      pushed := pushed + [v];
    }

    /** Also what a waiting drain does once its wait is over. */
    method Drain() returns (batch: seq<T>)
      requires Valid()
      modifies this
      ensures Valid() && View() == Drained(old(View()))
      ensures |batch| <= |pushed| && batch == old(items) == pushed[|pushed| - |batch|..]
    {
      batch := items;
      items := [];
    }

    method Stop()
      requires Valid()
      modifies this
      ensures Valid() && View() == Stopped(old(View()))
    {
      if !stopped { mark := Some(|pushed|); }
      stopped := true;
    }

    method IsStopped() returns (b: bool)
      requires Valid()
      ensures b <==> View().mark.Some?
    {
      b := stopped;
    }
  }

  /** What the other threads and the loop itself may do next. */
  datatype Event<T> = Push(v: T) | Stop | Work

  // ---------------------------------------------------------------- the engine, blocking

  datatype EngineLoop<T> = Waiting | Working(batch: seq<T>) | Exited

  datatype Blocking<T> = Blocking(q: Queue<T>, loop: EngineLoop<T>, done: seq<T>)

  function BlockingWork<T>(s: Blocking<T>): Blocking<T> {
    match s.loop
    case Waiting =>
      if s.q.items != [] then s.(q := Drained(s.q), loop := Working(s.q.items))
      else if s.q.mark.Some? then s.(loop := Exited)
      else s
    case Working(batch) =>
      if batch == [] then s.(loop := Waiting) else s.(done := s.done + [batch[0]], loop := Working(batch[1..]))
    case Exited => s
  }

  function BlockingStep<T>(s: Blocking<T>, e: Event<T>): Blocking<T> {
    match e
    case Push(v) => s.(q := Pushed(s.q, v))
    case Stop => s.(q := Stopped(s.q))
    case Work => BlockingWork(s)
  }

  function BlockingRun<T>(es: seq<Event<T>>): Blocking<T> {
    if es == [] then Blocking(NewQueue(), Waiting, []) else BlockingStep(BlockingRun(es[..|es| - 1]), es[|es| - 1])
  }

  /** What was taken from the queue and is not handled yet. */
  function InHand<T>(s: Blocking<T>): seq<T> {
    if s.loop.Working? then s.loop.batch else []
  }

  ghost predicate BlockingOk<T>(s: Blocking<T>) {
    && s.q.pushed == s.done + InHand(s) + s.q.items
    && (s.q.mark.Some? ==> s.q.mark.value <= |s.q.pushed|)
    && (s.loop.Exited? ==> s.q.mark.Some? && s.q.mark.value <= |s.done|)
  }

  lemma {:induction false} Assoc<T>(x: seq<T>, y: seq<T>, z: seq<T>, v: T)
    ensures x + y + z + [v] == x + y + (z + [v]) && x + [] + y == x + y + [] == x + y
    ensures y != [] ==> x + [y[0]] + y[1..] + z == x + y + z
  {
    if y != [] { assert [y[0]] + y[1..] == y; }
  }

  lemma {:induction false} BlockingStepKeeps<T>(s: Blocking<T>, e: Event<T>)
    requires BlockingOk(s)
    ensures BlockingOk(BlockingStep(s, e))
  {
    if e.Push? { Assoc(s.done, InHand(s), s.q.items, e.v); }
    if s.q.items != [] { Assoc(s.done, s.q.items, [], s.q.items[0]); }
    if s.loop.Working? && s.loop.batch != [] { Assoc(s.done, s.loop.batch, s.q.items, s.loop.batch[0]); }
  }

  lemma {:induction false} BlockingKeeps<T>(es: seq<Event<T>>)
    ensures BlockingOk(BlockingRun(es))
  {
    if es != [] {
      BlockingKeeps(es[..|es| - 1]);
      hide BlockingStep, BlockingOk;
      BlockingStepKeeps(BlockingRun(es[..|es| - 1]), es[|es| - 1]);
    }
  }

  /**
   Commands are handled in the order of their pushes, and none that was pushed before the stop is left when the engine
   exits.
   */
  lemma {:induction false} BlockingDrains<T>(es: seq<Event<T>>)
    ensures var s := BlockingRun(es);
      && s.done <= s.q.pushed
      && (s.loop.Exited? ==> s.q.mark.Some? && s.q.mark.value <= |s.q.pushed| && BeforeStop(s.q) <= s.done)
  {
    BlockingKeeps(es);
    hide BlockingRun;
  }

  // ---------------------------------------------------------------- the engine, polling the ring

  datatype SpinLoop = Polling | Checking | Left

  datatype Spin<T> = Spin(ring: Ring<T>, loop: SpinLoop, stopped: bool)

  /** The engine is about to find the ring empty. */
  predicate FindsNothing<T>(s: Spin<T>) {
    s.loop.Polling? && s.ring.cons.HeadLoaded? && s.ring.cons.head == s.ring.tail
  }

  function SpinWork<T>(s: Spin<T>): Spin<T> {
    match s.loop
    case Polling => s.(ring := ConsumerStep(s.ring), loop := if FindsNothing(s) then Checking else Polling)
    case Checking => s.(loop := if s.stopped then Left else Polling)
    case Left => s
  }

  /** `Push` is one step of the gateway's push. */
  function SpinStep<T>(s: Spin<T>, e: Event<T>): Spin<T> {
    match e
    case Push(v) => s.(ring := ProducerStep(s.ring, v))
    case Stop => s.(stopped := true)
    case Work => SpinWork(s)
  }

  function SpinRun<T>(memory: seq<T>, es: seq<Event<T>>): Spin<T> {
    if es == [] then Spin(Fresh(memory), Polling, false) else SpinStep(SpinRun(memory, es[..|es| - 1]), es[|es| - 1])
  }

  /** What has been pushed before step `k`. */
  function PushedAt<T>(memory: seq<T>, es: seq<Event<T>>, k: nat): seq<T>
    requires k <= |es|
  {
    SpinRun(memory, es[..k]).ring.pushed
  }

  /** Step `k` is a poll that finds the ring empty. */
  predicate EmptyPoll<T>(memory: seq<T>, es: seq<Event<T>>, k: nat)
    requires k < |es|
  {
    es[k].Work? && FindsNothing(SpinRun(memory, es[..k]))
  }

  /** Step `k` completes a push. */
  predicate PushEnds<T>(memory: seq<T>, es: seq<Event<T>>, k: nat)
    requires k < |es|
  {
    es[k].Push? && SpinRun(memory, es[..k]).ring.prod.Written?
  }

  predicate LastEmptyPoll<T>(memory: seq<T>, es: seq<Event<T>>, i: nat) {
    i < |es| && EmptyPoll(memory, es, i) && forall k | i < k < |es| :: !EmptyPoll(memory, es, k)
  }

  predicate FirstStop<T>(es: seq<Event<T>>, j: nat) {
    j < |es| && es[j].Stop? && forall k | 0 <= k < j :: !es[k].Stop?
  }

  lemma {:induction false} SpinKeeps<T>(memory: seq<T>, es: seq<Event<T>>)
    requires |memory| > 0
    ensures Inv(SpinRun(memory, es).ring)
  {
    if es == [] {
      RunKeeps(memory, []);
    } else {
      var s, e := SpinRun(memory, es[..|es| - 1]), es[|es| - 1];
      SpinKeeps(memory, es[..|es| - 1]);
      hide Inv;
      if e.Push? { ProducerKeeps(s.ring, e.v); }
      ConsumerKeeps(s.ring);
    }
  }

  /** Once an empty poll has sent the engine to look at the stop flag, it has handled what had been pushed by then. */
  lemma {:induction false} SpinLeaves<T>(memory: seq<T>, es: seq<Event<T>>) returns (i: nat)
    requires |memory| > 0 && !SpinRun(memory, es).loop.Polling?
    ensures LastEmptyPoll(memory, es, i) && SpinRun(memory, es).ring.popped == PushedAt(memory, es, i)
  {
    var n := |es| - 1;
    var s, before := SpinRun(memory, es[..n]), es[..n];
    SpinKeeps(memory, before);
    if s.loop.Polling? {
      i := n;
      ValidOccupancy(s.ring);
    } else {
      i := SpinLeaves(memory, before);
      assert before[..i] == es[..i];
      hide SpinRun;
      forall k | i < k < |es| ensures !EmptyPoll(memory, es, k) {
        if k < n { assert before[..k] == es[..k] && !EmptyPoll(memory, before, k); }
      }
    }
  }

  /** What is pushed only grows, and it grows exactly when a push completes. */
  lemma {:induction false} PushedGrows<T>(memory: seq<T>, es: seq<Event<T>>, a: nat, b: nat)
    requires a <= b <= |es|
    ensures PushedAt(memory, es, a) <= PushedAt(memory, es, b)
    ensures PushedAt(memory, es, a) == PushedAt(memory, es, b) <==> forall k | a <= k < b :: !PushEnds(memory, es, k)
    decreases b
  {
    if a < b {
      PushedGrows(memory, es, a, b - 1);
      assert es[..b][..b - 1] == es[..b - 1];
      var s := SpinRun(memory, es[..b - 1]);
      assert SpinRun(memory, es[..b]) == SpinStep(s, es[b - 1]);
      assert PushEnds(memory, es, b - 1) <==> |PushedAt(memory, es, b)| > |PushedAt(memory, es, b - 1)|;
      assert !PushEnds(memory, es, b - 1) ==> PushedAt(memory, es, b) == PushedAt(memory, es, b - 1);
      hide SpinRun, PushEnds;
    }
  }

  /** A stop flag that is set was set by a first stop. */
  lemma {:induction false} StopHappened<T>(memory: seq<T>, es: seq<Event<T>>) returns (j: nat)
    requires SpinRun(memory, es).stopped
    ensures FirstStop(es, j)
  {
    var n := |es| - 1;
    var before := es[..n];
    if SpinRun(memory, before).stopped {
      j := StopHappened(memory, before);
      assert before[j] == es[j] && forall k | 0 <= k < j :: before[k] == es[k];
    } else {
      j := n;
      NoStopYet(memory, before);
      assert forall k | 0 <= k < n :: before[k] == es[k];
    }
  }

  lemma {:induction false} NoStopYet<T>(memory: seq<T>, es: seq<Event<T>>)
    requires !SpinRun(memory, es).stopped
    ensures forall k | 0 <= k < |es| :: !es[k].Stop?
  {
    if es != [] {
      var n := |es| - 1;
      NoStopYet(memory, es[..n]);
      forall k | 0 <= k < |es| ensures !es[k].Stop? { if k < n { assert es[..n][k] == es[k]; } }
    }
  }

  lemma {:induction false} LeftWasStopped<T>(memory: seq<T>, es: seq<Event<T>>)
    ensures SpinRun(memory, es).loop.Left? ==> SpinRun(memory, es).stopped
  {
    if es != [] { LeftWasStopped(memory, es[..|es| - 1]); }
  }

  /**
   Commands are handled in the order of their pushes; an engine that has left saw a stop and, before it, an empty ring.
   */
  lemma {:induction false} SpinPrefix<T>(memory: seq<T>, es: seq<Event<T>>)
    requires |memory| > 0
    ensures var s := SpinRun(memory, es);
      && s.ring.popped <= s.ring.pushed
      && (s.loop.Left? ==> exists i, j :: LastEmptyPoll(memory, es, i) && FirstStop(es, j))
  {
    SpinKeeps(memory, es);
    LeftWasStopped(memory, es);
    hide SpinRun;
    if SpinRun(memory, es).loop.Left? {
      var i := SpinLeaves(memory, es);
      var j := StopHappened(memory, es);
    }
  }

  /**
   The exact condition, on the schedule: an engine that has left has handled everything pushed before the stop if and
   only if the stop came before the engine's last empty poll, or no push was completed between that poll and the stop.
   */
  lemma {:induction false} SpinExact<T>(memory: seq<T>, es: seq<Event<T>>, i: nat, j: nat)
    requires |memory| > 0 && SpinRun(memory, es).loop.Left? && LastEmptyPoll(memory, es, i) && FirstStop(es, j)
    ensures PushedAt(memory, es, j) <= SpinRun(memory, es).ring.popped
       <==> j < i || forall k | i < k < j :: !PushEnds(memory, es, k)
  {
    var i' := SpinLeaves(memory, es);
    hide SpinRun;
    assert i' == i;
    if j < i {
      PushedGrows(memory, es, j, i);
    } else {
      PushedGrows(memory, es, i, j);
      assert !PushEnds(memory, es, i);
    }
  }

  lemma {:induction false} SpinMore<T>(memory: seq<T>, es: seq<Event<T>>, e: Event<T>)
    ensures SpinRun(memory, es + [e]) == SpinStep(SpinRun(memory, es), e)
  {
    hide SpinStep;
    assert (es + [e])[..|es|] == es;
  }

  function SpinSteps<T>(s: Spin<T>, es: seq<Event<T>>): Spin<T>
    decreases |es|
  {
    if es == [] then s else SpinSteps(SpinStep(s, es[0]), es[1..])
  }

  lemma {:induction false} SpinOn<T>(memory: seq<T>, es: seq<Event<T>>, more: seq<Event<T>>)
    ensures SpinRun(memory, es + more) == SpinSteps(SpinRun(memory, es), more)
    decreases |more|
  {
    hide SpinStep;
    if more == [] {
      assert es + more == es;
    } else {
      SpinMore(memory, es, more[0]);
      SpinOn(memory, es + [more[0]], more[1..]);
      assert es + [more[0]] + more[1..] == es + more;
    }
  }

  /** Two steps of a poll of an empty ring. */
  lemma {:induction false} PollNothing<T>(memory: seq<T>)
    ensures SpinSteps(Spin(Fresh(memory), Polling, false), [Work, Work]) == Spin(Fresh(memory), Checking, false)
  {
    var s := Spin(Fresh(memory), Polling, false);
    var s1 := s.(ring := s.ring.(cons := HeadLoaded(0)));
    assert SpinStep(s, Work) == s1 && SpinStep(s1, Work) == s.(loop := Checking);
    hide SpinStep;
    var es: seq<Event<T>> := [Work, Work];
    assert es[1..] == [Work] && es[1..][1..] == [];
    assert SpinSteps(s1, es[1..]) == SpinSteps(s.(loop := Checking), []);
  }

  /** The four steps of a push into an empty ring of two slots. */
  lemma {:induction false} WholePush<T>(a: T, v: T)
    ensures var s := Spin(Fresh([a, a]), Checking, false); var p := Push(v);
      SpinSteps(SpinSteps(s, [p, p]), [p, p]) == s.(ring := Ring(0, 1, [v, a], AtRest, Resting, [v], []))
  {
    var s, p := Spin(Fresh([a, a]), Checking, false), Push(v);
    var s1, s2 := s.(ring := s.ring.(prod := TailLoaded(v, 0))), s.(ring := s.ring.(prod := RoomSeen(v, 0)));
    var s3 := s.(ring := Ring(0, 0, [v, a], Written(v, 0), Resting, [], []));
    var s4 := s.(ring := Ring(0, 1, [v, a], AtRest, Resting, [v], []));
    assert SpinStep(s, p) == s1 && SpinStep(s1, p) == s2;
    assert [a, a][0 := v] == [v, a] && [] + [v] == [v];
    assert SpinStep(s2, p) == s3 && SpinStep(s3, p) == s4;
    hide SpinStep;
    assert [p, p][1..] == [p] && [p][1..] == [];
    assert SpinSteps(s1, [p]) == s2 && SpinSteps(s3, [p]) == s4;
  }

  /** A poll that finds the ring empty, a whole push, the stop, and the engine leaves with the command unhandled. */
  lemma {:induction false} SpinCanMiss<T>(a: T, v: T) returns (es: seq<Event<T>>, j: nat)
    ensures FirstStop(es, j) && PushedAt([a, a], es, j) == [v]
    ensures SpinRun([a, a], es).loop.Left? && SpinRun([a, a], es).ring.popped == []
  {
    var memory, p := [a, a], Push(v);
    var none: seq<Event<T>>, polls: seq<Event<T>>, last: seq<Event<T>> := [], [Work, Work], [Stop, Work];
    var s := Spin(Ring(0, 1, [v, a], AtRest, Resting, [v], []), Checking, false);
    var s1 := s.(stopped := true);
    assert SpinRun(memory, none) == Spin(Fresh(memory), Polling, false);
    assert SpinStep(s, Stop) == s1 && SpinStep(s1, Work) == s1.(loop := Left);
    assert last[1..] == [Work] && last[1..][1..] == [];
    assert SpinSteps(s1, last[1..]) == s1.(loop := Left);
    assert SpinSteps(s, last) == s1.(loop := Left);
    hide SpinSteps, SpinStep, SpinRun;
    PollNothing(memory);
    WholePush(a, v);
    var before := none + polls + [p, p] + [p, p];
    SpinOn(memory, none, polls);
    SpinOn(memory, none + polls, [p, p]);
    SpinOn(memory, none + polls + [p, p], [p, p]);
    SpinOn(memory, before, last);
    es, j := before + last, |before|;
    assert es[..j] == before;
    assert before == [Work, Work, p, p, p, p];
  }

  // ---------------------------------------------------------------- the feed

  datatype FeedLoop<T> = Draining | Idling | Publishing(batch: seq<T>) | LastDrain | LastPublish(batch: seq<T>) | Ended

  /** The batches of the rounds so far, an empty one for a heartbeat, and the batch published after the loop. */
  datatype Feed<T> = Feed(q: Queue<T>, loop: FeedLoop<T>, rounds: seq<seq<T>>, late: seq<T>)

  /** A timed drain may return at any moment, with or without events. */
  function FeedWork<T>(s: Feed<T>): Feed<T> {
    match s.loop
    case Draining =>
      if s.q.items == [] then s.(loop := Idling) else s.(q := Drained(s.q), loop := Publishing(s.q.items))
    case Idling =>
      if s.q.mark.Some? then s.(loop := LastDrain) else s.(loop := Draining, rounds := s.rounds + [[]])
    case Publishing(batch) => s.(loop := Draining, rounds := s.rounds + [batch])
    case LastDrain => s.(q := Drained(s.q), loop := LastPublish(s.q.items))
    case LastPublish(batch) => s.(loop := Ended, late := batch)
    case Ended => s
  }

  function FeedStep<T>(s: Feed<T>, e: Event<T>): Feed<T> {
    match e
    case Push(v) => s.(q := Pushed(s.q, v))
    case Stop => s.(q := Stopped(s.q))
    case Work => FeedWork(s)
  }

  function FeedRun<T>(es: seq<Event<T>>): Feed<T> {
    if es == [] then Feed(NewQueue(), Draining, [], []) else FeedStep(FeedRun(es[..|es| - 1]), es[|es| - 1])
  }

  function Joined<T>(rounds: seq<seq<T>>): seq<T> {
    if rounds == [] then [] else Joined(rounds[..|rounds| - 1]) + rounds[|rounds| - 1]
  }

  lemma {:induction false} OneMoreRound<T>(rounds: seq<seq<T>>, batch: seq<T>)
    ensures Joined(rounds + [batch]) == Joined(rounds) + batch
  {
    assert (rounds + [batch])[..|rounds|] == rounds;
  }

  /** Everything published so far. */
  function Published<T>(s: Feed<T>): seq<T> {
    Joined(s.rounds) + s.late
  }

  function Unpublished<T>(s: Feed<T>): seq<T> {
    if s.loop.Publishing? || s.loop.LastPublish? then s.loop.batch else []
  }

  ghost predicate FeedOk<T>(s: Feed<T>) {
    && s.q.pushed == Published(s) + Unpublished(s) + s.q.items
    && (s.q.mark.Some? ==> s.q.mark.value <= |s.q.pushed|)
    && (!s.loop.Ended? ==> s.late == [])
    && (s.loop.LastDrain? ==> s.q.mark.Some?)
    && (s.loop.LastPublish? ==> s.q.mark.Some? && s.q.mark.value <= |Published(s)| + |s.loop.batch|)
    && (s.loop.Ended? ==> s.q.mark.Some? && s.q.mark.value <= |Published(s)|)
  }

  lemma {:induction false} FeedPushKeeps<T>(s: Feed<T>, v: T)
    requires FeedOk(s)
    ensures FeedOk(FeedStep(s, Push(v)))
  {
    hide Joined;
    Assoc(Published(s), Unpublished(s), s.q.items, v);
  }

  lemma {:induction false} FeedWorkKeeps<T>(s: Feed<T>)
    requires FeedOk(s)
    ensures FeedOk(FeedWork(s))
  {
    hide Joined;
    var out := Joined(s.rounds);
    assert s.late == [] ==> out + s.late == out;
    assert out + [] + s.q.items == out + s.q.items + [] == out + s.q.items;
    OneMoreRound(s.rounds, []);
    OneMoreRound(s.rounds, Unpublished(s));
    assert out + Unpublished(s) + [] == out + Unpublished(s) && out + [] == out;
  }

  lemma {:induction false} FeedKeeps<T>(es: seq<Event<T>>)
    ensures FeedOk(FeedRun(es))
  {
    if es == [] {
      assert Joined<T>([]) == [];
    } else {
      FeedKeeps(es[..|es| - 1]);
      var s, e := FeedRun(es[..|es| - 1]), es[|es| - 1];
      hide FeedRun, FeedWork, Joined;
      match e {
        case Push(v) => FeedPushKeeps(s, v);
        case Stop =>
        case Work => FeedWorkKeeps(s);
      }
    }
  }

  /**
   Events are published in the order of their pushes, and all that were pushed before the stop are published before the
   session ends.
   */
  lemma {:induction false} FeedDrains<T>(es: seq<Event<T>>)
    ensures var s := FeedRun(es);
      && Published(s) <= s.q.pushed
      && (s.loop.Ended? ==> s.q.mark.Some? && s.q.mark.value <= |s.q.pushed| && BeforeStop(s.q) <= Published(s))
  {
    FeedKeeps(es);
    hide FeedRun, Joined;
  }
}
