/** Consuming a level of the optimised book and finding its best level, on values. */
module FastConsume {
  import opened Book
  import opened BookLemmas
  import opened BookEvents
  import opened Matching
  import opened Arena
  import opened Ladder
  import opened FastSteps
  import opened Snapshots

  // ---------------------------------------------------------------- slots nobody refers to

  /** What a free slot holds does not matter. */
  lemma {:induction false} DeadSlot(pool: seq<FOrder>, c: Index, free: seq<nat>, s: State, x: nat, node: FOrder)
    requires PoolRep(pool, c, s) && FreeRep(pool, c, free) && x in free && x < |pool| && node.id == pool[x].id
    ensures PoolRep(pool[x := node], c, s) && FreeRep(pool[x := node], c, free)
  {
    var pool' := pool[x := node];
    assert forall id | id in c :: c[id] != x;
    hide AtPrice, Get, Total;
    forall q: seq<Order> | Linked(pool, c, q) ensures Linked(pool', c, q) {
      forall k | 0 <= k < |q| ensures NodeAt(pool', c, q, k) { assert NodeAt(pool, c, q, k); }
    }
  }

  lemma {:induction false} UnlinkedDead(pool: seq<FOrder>, x: int, open: nat)
    requires Detachable(pool, x)
    ensures var pool1 := pool[x := pool[x].(open := open)];
      && Detachable(pool1, x)
      && x < |Unlinked(pool, x)|
      && Unlinked(pool1, x) == Unlinked(pool, x)[x := Unlinked(pool, x)[x].(open := open)]
  {
  }

  lemma {:induction false} PoolIgnoresCounter(pool: seq<FOrder>, c: Index, s: State, n: nat)
    requires PoolRep(pool, c, s)
    ensures PoolRep(pool, c, s.(nextMatch := n))
  {
    hide AtPrice, Get, Linked, Indexed;
    forall id ensures s.(nextMatch := n).Find(id) == s.Find(id) { }
  }

  // ---------------------------------------------------------------- one level

  /** An incoming order at work on the best level of the opposite side: where it started and what it is to do. */
  datatype Job = Job(id: nat, side: Side, limit: int, want: nat, s0: State, p: int, pool0: seq<FOrder>, c0: Index) {
    ghost predicate Started() {
      var opp := s0.On(Opposite(side));
      Wf(s0) && opp != [] && opp[0].price == p && Crosses(side, limit, p)
    }

    function Queue(s: State): seq<Order> {
      AtPrice(s.On(Opposite(side)), p)
    }

    /** `filled` shares were traded by the events `done`, all of them at this level, which now is `level`. */
    ghost predicate At(s: State, pool: seq<FOrder>, c: Index, free: seq<nat>, level: Level, filled: nat,
        done: seq<Event>) {
      && Wf(s) && PoolRep(pool, c, s) && FreeRep(pool, c, free) && filled <= want
      && OnlyAt(s0, s, Opposite(side), p)
      && Frame(pool0, c0, pool, c, Queue(s0))
      && (forall x | Get(Queue(s0), x).None? :: Get(Queue(s), x).None?)
      && level == LevelOf(c, Queue(s))
      && Remaining(Trade(s0, id, side, limit, want), filled, done, s, id, side, limit, want - filled)
    }
  }

  /** What one execution does, before the arena is looked at. */
  lemma {:induction false} FillOne(j: Job, s: State, filled: nat, done: seq<Event>) returns (e: Event)
    requires j.Started() && Wf(s) && filled < j.want && OnlyAt(j.s0, s, Opposite(j.side), j.p) && j.Queue(s) != []
    requires Remaining(Trade(j.s0, j.id, j.side, j.limit, j.want), filled, done, s, j.id, j.side, j.limit,
      j.want - filled)
    ensures var o, opp := j.Queue(s)[0], Opposite(j.side);
      var exec := if j.want - filled < o.open then j.want - filled else o.open;
      && exec > 0 && o.price == j.p && o.side == opp && s.Find(o.id) == Some(o)
      && e == Executed(o.id, j.id, j.side, j.p, exec, s.nextMatch) && Legal(s, e)
      && After(s, e) == (if exec == o.open then s.With(opp, Remove(s.On(opp), o.id))
                         else s.With(opp, SetOpen(s.On(opp), o.id, o.open - exec))).(nextMatch := s.nextMatch + 1)
      && Wf(After(s, e))
      && Remaining(Trade(j.s0, j.id, j.side, j.limit, j.want), filled + exec, done + [e], After(s, e),
                   j.id, j.side, j.limit, j.want - filled - exec)
  {
    var opp0, want, opp := j.s0.On(Opposite(j.side)), j.want - filled, Opposite(j.side);
    ConsumeLegal(s, opp0, j.p, j.id, j.side, want);
    e := NextFill(s, j.id, j.side, want);
    var o := s.On(opp)[0];
    SortedHead(s.On(opp), opp, o);
    MemberIsFound(s.On(opp), o);
    assert Get(s.On(opp), o.id) == Some(o);
    RemainingStep(Trade(j.s0, j.id, j.side, j.limit, j.want), filled, done, s, j.id, j.side, j.limit, want);
    hide Sorted, UniqueIds, AtPrice, Match, Remaining;
    assert Get(s.On(j.side), o.id).None?;
  }

  lemma {:induction false} OnlyAtCompose(s0: State, s: State, s': State, side: Side, p: int, n: nat)
    requires OnlyAt(s0, s, side, p) && OnlyAt(s, s', side, p)
    ensures OnlyAt(s0, s'.(nextMatch := n), side, p)
  {
    hide AtPrice;
  }

  lemma {:induction false} FrameCompose(pool0: seq<FOrder>, c0: Index, q0: seq<Order>, pool: seq<FOrder>, c: Index,
      q: seq<Order>, pool': seq<FOrder>, c': Index)
    requires Frame(pool0, c0, pool, c, q0) && Frame(pool, c, pool', c', q)
    requires forall x | Get(q0, x).None? :: Get(q, x).None?
    ensures Frame(pool0, c0, pool', c', q0)
  {
    hide Get;
  }

  /** A turn of the loop that leaves part of the resting order. */
  lemma {:induction false} ConsumePart(j: Job, s: State, pool: seq<FOrder>, c: Index, free: seq<nat>, level: Level,
      filled: nat, done: seq<Event>)
    returns (s': State)
    requires j.Started() && j.At(s, pool, c, free, level, filled, done) && filled < j.want && j.Queue(s) != []
    requires j.want - filled < j.Queue(s)[0].open
    ensures var o, exec := j.Queue(s)[0], j.want - filled;
      && 0 <= level.head < |pool| && pool[level.head].open == o.open && pool[level.head].id == o.id
      && s'.nextMatch == s.nextMatch + 1
      && j.At(s', pool[level.head := pool[level.head].(open := o.open - exec)], c, free,
        level.(total := Wrap(level.total - exec)),
              j.want, done + [Executed(o.id, j.id, j.side, j.p, exec, s.nextMatch)])
  {
    hide AtPrice, Get, SetOpen, Remove, Wf, Linked, Indexed, FreeRep, Frame, OnlyAt, Remaining, Trade, Total, Wrap;
    var q, opp := j.Queue(s), Opposite(j.side);
    var e := FillOne(j, s, filled, done);
    s' := After(s, e);
    var o := q[0];
    PoolShrink(pool, c, free, s, o.id, o.open - e.qty);
    HeadSlot(c, s, pool, q);
    var s1 := s.With(opp, SetOpen(s.On(opp), o.id, o.open - e.qty));
    var pool' := pool[c[o.id] := pool[c[o.id]].(open := o.open - e.qty)];
    PoolIgnoresCounter(pool', c, s1, s'.nextMatch);
    OnlyAtCompose(j.s0, s, s1, opp, j.p, s'.nextMatch);
    FrameCompose(j.pool0, j.c0, j.Queue(j.s0), pool, c, q, pool', c);
    QueueShrunk(s, o.id, o.open - e.qty);
    forall x | Get(q, x).None? ensures Get(SetOpen(q, o.id, o.open - e.qty), x).None? {
      GetAfterSetOpen(q, o.id, o.open - e.qty, x);
    }
  }

  lemma {:induction false} HeadSlot(c: Index, s: State, pool: seq<FOrder>, q: seq<Order>)
    requires q != [] && Linked(pool, c, q)
    ensures q[0].id in c && LevelOf(c, q).head == c[q[0].id]
  {
    assert NodeAt(pool, c, q, 0);
  }

  /** A turn of the loop that consumes the resting order. */
  lemma {:induction false} ConsumeWhole(j: Job, s: State, pool: seq<FOrder>, c: Index, free: seq<nat>, level: Level,
      filled: nat, done: seq<Event>)
    returns (s': State)
    requires j.Started() && j.At(s, pool, c, free, level, filled, done) && filled < j.want && j.Queue(s) != []
    requires j.Queue(s)[0].open <= j.want - filled
    ensures var o := j.Queue(s)[0]; var x := level.head;
      && 0 <= x < |pool| && pool[x].open == o.open > 0 && pool[x].id == o.id
        && Detachable(pool[x := pool[x].(open := 0)], x)
      && s'.nextMatch == s.nextMatch + 1
      && j.At(s', Unlinked(pool[x := pool[x].(open := 0)], x), c - {o.id}, free + [x], LevelWithout(pool, x, level),
              filled + o.open, done + [Executed(o.id, j.id, j.side, j.p, o.open, s.nextMatch)])
  {
    hide AtPrice, Get, SetOpen, Remove, Wf, Linked, Indexed, FreeRep, Frame, OnlyAt, Remaining, Trade, Total, Wrap,
      Unlinked, LevelWithout;
    var q, opp := j.Queue(s), Opposite(j.side);
    var e := FillOne(j, s, filled, done);
    s' := After(s, e);
    var o := q[0];
    PoolRemove(pool, c, free, s, o.id);
    HeadSlot(c, s, pool, q);
    var x := c[o.id];
    var s1 := s.With(opp, Remove(s.On(opp), o.id));
    var pool1, c' := Unlinked(pool, x), c - {o.id};
    UnlinkedDead(pool, x, 0);
    FreedSlot(pool1, c', free, x);
    DeadSlot(pool1, c', free + [x], s1, x, pool1[x].(open := 0));
    var pool' := pool1[x := pool1[x].(open := 0)];
    PoolIgnoresCounter(pool', c', s1, s'.nextMatch);
    OnlyAtCompose(j.s0, s, s1, opp, j.p, s'.nextMatch);
    DeadFrame(pool, c, pool1, c', q, x, pool1[x].(open := 0));
    FrameCompose(j.pool0, j.c0, j.Queue(j.s0), pool, c, q, pool', c');
    QueueWithout(s, o.id);
    forall y | Get(q, y).None? ensures Get(Remove(q, o.id), y).None? { GetAfterRemove(q, o.id, y); }
  }

  lemma {:induction false} FreedSlot(pool: seq<FOrder>, c: Index, free: seq<nat>, x: nat)
    requires FreeRep(pool, c, free + [x])
    ensures x < |pool|
  {
    assert x in free + [x];
  }

  lemma {:induction false} DeadFrame(pool: seq<FOrder>, c: Index, pool': seq<FOrder>, c': Index, q: seq<Order>, x: nat,
      node: FOrder)
    requires Frame(pool, c, pool', c', q) && Indexed(pool, c) && q != [] && q[0].id in c && x == c[q[0].id]
      && x < |pool'|
    ensures Frame(pool, c, pool'[x := node], c', q)
  {
    PresentById(q, 0);
    hide Get;
  }

  lemma {:induction false} StartJob(j: Job, free: seq<nat>)
    requires Wf(j.s0) && PoolRep(j.pool0, j.c0, j.s0) && FreeRep(j.pool0, j.c0, free)
    requires WouldCross(j.s0, j.side, j.limit) && j.p == j.s0.On(Opposite(j.side))[0].price
    ensures j.Started() && j.Queue(j.s0) != [] && j.At(j.s0, j.pool0, j.c0, free, LevelOf(j.c0, j.Queue(j.s0)), 0, [])
  {
    RemainingStarts(j.s0, j.id, j.side, j.limit, j.want);
    hide Get, Trade, Remaining, Linked, FreeRep;
  }

  // ---------------------------------------------------------------- the best level

  /** The ladder shows at `t` a level of this side. */
  ghost predicate Shows(st: Store, s: State, side: Side, t: int) {
    AtPrice(s.On(side), st.PriceAt(t)) != []
  }

  lemma {:induction false} LadderShows(st: Store, pool: seq<FOrder>, c: Index, free: seq<nat>, s: State, side: Side,
      t: int)
    requires Rep(st, pool, c, free, s) && 0 <= t < |st.ladder|
    ensures st.ladder[t].head != NIL ==> 0 <= st.ladder[t].head < |pool|
    ensures Shows(st, s, side, t) <==> st.ladder[t].head != NIL && pool[st.ladder[t].head].side == side
    ensures Shows(st, s, side, t) ==> st.ladder[t] == LevelOf(c, AtPrice(s.On(side), st.PriceAt(t)))
  {
    var p := st.PriceAt(t);
    TickOfPrice(st, t);
    assert PriceRep(st, c, s, p);
    QueueLinked(pool, c, s, Buy, p);
    QueueLinked(pool, c, s, Sell, p);
    HeadOf(pool, c, AtPrice(s.bids, p));
    HeadOf(pool, c, AtPrice(s.asks, p));
    OneSided(s, p);
    SideOfQueue(s, Buy, p);
    SideOfQueue(s, Sell, p);
    hide AtPrice, Wf, Linked, LevelOf, PoolRep, FreeRep, StoreRep;
  }

  lemma {:induction false} SideOfQueue(s: State, side: Side, p: int)
    requires Wf(s)
    ensures var q := AtPrice(s.On(side), p); q != [] ==> q[0].side == side && q[0].price == p
  {
    AtPriceKeeps(s.On(side), side, p);
    hide AtPrice, Wf;
  }

  /** `t` is the best ladder level of this side, or -1 if it has none. */
  ghost predicate LadderBest(st: Store, s: State, side: Side, t: int) {
    && -1 <= t < |st.ladder|
    && (t >= 0 ==> Shows(st, s, side, t))
    && forall u | 0 <= u < |st.ladder| && Shows(st, s, side, u) :: t >= 0 && !Better(side, st.PriceAt(u), st.PriceAt(t))
  }

  /** The better of the best ladder level and the best fallback level is the best price of the side. */
  lemma {:induction false} BestOverall(st: Store, pool: seq<FOrder>, c: Index, free: seq<nat>, s: State, side: Side,
      t: int)
    requires Rep(st, pool, c, free, s) && LadderBest(st, s, side, t)
    ensures var fb := st.Fallback(side).Keys;
      && (s.On(side) == [] <==> t < 0 && fb == {})
      && (s.On(side) != [] ==>
            var best := s.On(side)[0].price;
            if fb != {} && (t < 0 || Better(side, BestOf(side, fb), st.PriceAt(t)))
            then best == BestOf(side, fb) && st.TickIndex(best) < 0
            else t >= 0 && best == st.PriceAt(t) && st.TickIndex(best) == t)
  {
    var l, fb := s.On(side), st.Fallback(side).Keys;
    forall p | p in fb ensures AtPrice(l, p) != [] && st.TickIndex(p) < 0 { assert PriceRep(st, c, s, p); }
    if t >= 0 { TickOfPrice(st, t); }
    forall p | AtPrice(l, p) != [] ensures l != [] && !Better(side, p, l[0].price) {
      if Better(side, p, l[0].price) { NothingBeyondBest(l, side, p); }
    }
    if fb != {} {
      var p := BestOf(side, fb);
      assert p in fb && AtPrice(l, p) != [];
    }
    if l != [] {
      var best := l[0].price;
      assert AtPrice(l, best) != [];
      assert PriceRep(st, c, s, best);
      if st.TickIndex(best) >= 0 {
        PriceOfTick(st, best);
        assert Shows(st, s, side, st.TickIndex(best));
      }
      hide AtPrice, Sorted, StoreRep, PoolRep, FreeRep, Store.TickIndex, Store.PriceAt;
    }
  }

  // ---------------------------------------------------------------- cursors

  lemma {:induction false} CursorsKept(st: Store, st': Store, bid: int, ask: int, s: State, s': State)
    requires st.tick > 0 && st'.tick > 0 && Cursors(st, bid, ask, s)
    requires forall p :: st'.TickIndex(p) == st.TickIndex(p)
    requires forall p ::
      && (AtPrice(s'.bids, p) != [] ==> AtPrice(s.bids, p) != [])
      && (AtPrice(s'.asks, p) != [] ==> AtPrice(s.asks, p) != [])
    ensures Cursors(st', bid, ask, s')
  {
    hide AtPrice, Store.TickIndex;
  }

  /** Where the cursors go when an order comes to rest at tick `t`. */
  function BidCursor(side: Side, t: int, bid: int): int {
    if side.Buy? && t >= 0 && t > bid then t else bid
  }

  function AskCursor(side: Side, t: int, ask: int): int {
    if side.Sell? && t >= 0 && t < ask then t else ask
  }

  lemma {:induction false} CursorsRest(st: Store, st': Store, bid: int, ask: int, s: State, o: Order)
    requires Wf(s) && st.tick > 0 && st'.tick > 0 && Cursors(st, bid, ask, s)
    requires forall p :: st'.TickIndex(p) == st.TickIndex(p)
    requires OnlyAt(s, Rest(s, o.id, o.side, o.price, o.open), o.side, o.price)
    ensures var t := st.TickIndex(o.price);
      Cursors(st', BidCursor(o.side, t, bid), AskCursor(o.side, t, ask), Rest(s, o.id, o.side, o.price, o.open))
  {
    hide AtPrice, Store.TickIndex, Insert, Wf;
    var s' := Rest(s, o.id, o.side, o.price, o.open);
    forall p | p != o.price ensures AtPrice(s'.bids, p) == AtPrice(s.bids, p)
      && AtPrice(s'.asks, p) == AtPrice(s.asks, p) {
      assert AtPrice(s'.On(o.side), p) == AtPrice(s.On(o.side), p);
    }
    assert s'.On(Opposite(o.side)) == s.On(Opposite(o.side));
  }

  lemma {:induction false} BestMovesCursor(st: Store, bid: int, ask: int, s: State, side: Side, t: int)
    requires st.tick > 0 && Cursors(st, bid, ask, s) && LadderBest(st, s, side, t)
    ensures Cursors(st, if side.Buy? then t else bid, if side.Buy? then ask else if t < 0 then |st.ladder| else t, s)
  {
    forall p | st.TickIndex(p) >= 0 && AtPrice(s.On(side), p) != []
      ensures t >= 0 && if side.Buy? then st.TickIndex(p) <= t else t <= st.TickIndex(p)
    {
      PriceOfTick(st, p);
      assert Shows(st, s, side, st.TickIndex(p));
      PriceOrder(st, t, st.TickIndex(p));
      PriceOrder(st, st.TickIndex(p), t);
    }
  }

  /** A scan from the cursor that has skipped everything up to `t` cannot have skipped a level of the side. */
  lemma {:induction false} ScanFinds(st: Store, bid: int, ask: int, s: State, side: Side, t: int)
    requires st.tick > 0 && st.bandSet && Cursors(st, bid, ask, s) && -1 <= t <= |st.ladder|
    requires side.Buy? ==> t < |st.ladder| && forall u | t < u < |st.ladder| && u <= bid :: !Shows(st, s, side, u)
    requires side.Sell? ==> t >= 0 && forall u | 0 <= u < t && ask <= u :: !Shows(st, s, side, u)
    requires 0 <= t < |st.ladder| ==> Shows(st, s, side, t)
    ensures LadderBest(st, s, side, if t < |st.ladder| then t else -1)
  {
    var best := if t < |st.ladder| then t else -1;
    forall u | 0 <= u < |st.ladder| && Shows(st, s, side, u) ensures best >= 0
      && !Better(side, st.PriceAt(u), st.PriceAt(best)) {
      TickOfPrice(st, u);
      assert st.TickIndex(st.PriceAt(u)) == u;
      PriceOrder(st, t, u);
      PriceOrder(st, u, t);
    }
  }
}
