/**
 The price levels of the optimised book: a ladder of ticks around the first price, shared by both sides, and
 ordered maps for every other price. `StoreRep` says what they hold for a book of the specification.
 */
module Ladder {
  import opened Book
  import opened BookLemmas
  import opened Arena

  datatype Store = Store(tick: int, bandSet: bool, base: int, ladder: seq<Level>, fbBids: map<int, Level>,
      fbAsks: map<int, Level>) {
    /** The ladder slot of a price; prices outside the band or between ticks have none. */
    function TickIndex(price: int): (t: int)
      requires tick > 0
      ensures -1 <= t < |ladder|
    {
      var off := price - base;
      if !bandSet || off < 0 || off % tick != 0 || off / tick >= |ladder| then -1 else off / tick
    }

    function PriceAt(t: int): int {
      base + t * tick
    }

    function Fallback(side: Side): map<int, Level> {
      if side.Buy? then fbBids else fbAsks
    }

    function WithFallback(side: Side, m: map<int, Level>): Store {
      if side.Buy? then this.(fbBids := m) else this.(fbAsks := m)
    }

    /** The level of a price, empty if it has none. */
    function LevelAt(side: Side, price: int): Level
      requires tick > 0
    {
      var t := TickIndex(price);
      if t >= 0 then ladder[t] else if price in Fallback(side) then Fallback(side)[price] else EMPTY_LEVEL
    }

    /** Stores a level back; an empty level outside the ladder goes. */
    function Put(side: Side, price: int, level: Level): Store
      requires tick > 0
    {
      var t := TickIndex(price);
      if t >= 0 then this.(ladder := ladder[t := level])
      else if level.head == NIL then WithFallback(side, Fallback(side) - {price})
      else WithFallback(side, Fallback(side)[price := level])
    }
  }

  lemma {:induction false} MulOrder(i: int, j: int, k: int)
    requires k > 0
    ensures i < j <==> i * k < j * k
    ensures i == j <==> i * k == j * k
  {
    if i < j { assert (j - i) * k > 0; } else if i > j { assert (i - j) * k > 0; }
  }

  lemma {:induction false} DivExact(off: int, i: int, k: int)
    requires k > 0 && 0 <= off
    ensures off == i * k <==> off % k == 0 && off / k == i
  {
    var d, r := off / k, off % k;
    assert off == d * k + r && 0 <= r < k;
    if off == i * k {
      assert r == (i - d) * k;
      if i - d >= 1 { MulOrder(1, i - d, k); } else if i - d <= -1 { MulOrder(i - d, 0, k); }
    }
  }

  /** Ladder index and ladder price are inverse to each other. */
  lemma {:induction false} TickOfPrice(st: Store, t: int)
    requires st.tick > 0 && st.bandSet && 0 <= t < |st.ladder|
    ensures st.TickIndex(st.PriceAt(t)) == t
  {
    MulOrder(0, t, st.tick);
    DivExact(t * st.tick, t, st.tick);
  }

  lemma {:induction false} PriceOfTick(st: Store, p: int)
    requires st.tick > 0 && st.TickIndex(p) >= 0
    ensures st.PriceAt(st.TickIndex(p)) == p && st.bandSet
  {
    DivExact(p - st.base, st.TickIndex(p), st.tick);
  }

  lemma {:induction false} PriceOrder(st: Store, t: int, u: int)
    requires st.tick > 0
    ensures st.PriceAt(t) < st.PriceAt(u) <==> t < u
  {
    MulOrder(t, u, st.tick);
  }

  // ---------------------------------------------------------------- what the levels hold

  /** The queue of a price; a book that is not crossed has it on one side only. */
  ghost function QueueAt(s: State, p: int): seq<Order> {
    if AtPrice(s.bids, p) != [] then AtPrice(s.bids, p) else AtPrice(s.asks, p)
  }

  ghost predicate FallbackRep(m: map<int, Level>, c: Index, q: seq<Order>, p: int) {
    (p in m <==> q != []) && (p in m ==> m[p] == LevelOf(c, q))
  }

  /** A price is kept in exactly one place, with the level its queue asks for. */
  ghost predicate PriceRep(st: Store, c: Index, s: State, p: int)
    requires st.tick > 0
  {
    if st.TickIndex(p) >= 0 then
      p !in st.fbBids && p !in st.fbAsks && st.ladder[st.TickIndex(p)] == LevelOf(c, QueueAt(s, p))
    else
      FallbackRep(st.fbBids, c, AtPrice(s.bids, p), p) && FallbackRep(st.fbAsks, c, AtPrice(s.asks, p), p)
  }

  ghost predicate StoreRep(st: Store, c: Index, s: State) {
    st.tick > 0 && forall p :: PriceRep(st, c, s, p)
  }

  ghost predicate PoolRep(pool: seq<FOrder>, c: Index, s: State) {
    && Indexed(pool, c)
    && (forall id :: id in c <==> s.Find(id).Some?)
    && (forall p :: Linked(pool, c, AtPrice(s.bids, p)))
    && (forall p :: Linked(pool, c, AtPrice(s.asks, p)))
  }

  // ---------------------------------------------------------------- changes at one price

  ghost predicate OnlyAt(s: State, s': State, side: Side, p: int) {
    && s'.On(Opposite(side)) == s.On(Opposite(side))
    && forall q | q != p :: AtPrice(s'.On(side), q) == AtPrice(s.On(side), q)
  }

  lemma {:induction false} OneSided(s: State, p: int)
    requires Wf(s)
    ensures AtPrice(s.bids, p) == [] || AtPrice(s.asks, p) == []
  {
    if s.bids != [] && p > s.bids[0].price { NothingBeyondBest(s.bids, Buy, p); }
    if s.asks != [] && p < s.asks[0].price { NothingBeyondBest(s.asks, Sell, p); }
  }

  /** Orders of another queue are not in this one. */
  lemma {:induction false} Strangers(s: State, side: Side, p: int, side': Side, q: int)
    requires Wf(s) && (side' != side || q != p)
    ensures forall o | o in AtPrice(s.On(side'), q) :: Get(AtPrice(s.On(side), p), o.id).None?
  {
    hide Get, AtPrice, Sorted, UniqueIds;
    forall o | o in AtPrice(s.On(side'), q) ensures Get(AtPrice(s.On(side), p), o.id).None? {
      AtPriceKeeps(s.On(side'), side', q);
      MemberIsFound(s.On(side'), o);
      GetAtPrice(s.On(side), o.id, p);
    }
  }

  lemma {:induction false} QueueLinked(pool: seq<FOrder>, c: Index, s: State, side: Side, p: int)
    requires PoolRep(pool, c, s)
    ensures Linked(pool, c, AtPrice(s.On(side), p))
  {
  }

  lemma {:induction false} OtherQueues(pool: seq<FOrder>, c: Index, s: State, pool': seq<FOrder>, c': Index, s': State,
                                       side: Side, p: int, side': Side, q: int)
    requires Wf(s) && PoolRep(pool, c, s) && OnlyAt(s, s', side, p) && Frame(pool, c, pool', c', AtPrice(s.On(side), p))
    requires side' != side || q != p
    ensures AtPrice(s'.On(side'), q) == AtPrice(s.On(side'), q)
    ensures Linked(pool', c', AtPrice(s'.On(side'), q))
    ensures LevelOf(c', AtPrice(s'.On(side'), q)) == LevelOf(c, AtPrice(s.On(side'), q))
  {
    hide Get, AtPrice, Sorted, UniqueIds, Frame, Linked, Wf, LevelOf, Indexed;
    assert side' != side ==> side' == Opposite(side);
    Strangers(s, side, p, side', q);
    QueueLinked(pool, c, s, side', q);
    FrameLinked(pool, c, pool', c', AtPrice(s.On(side), p), AtPrice(s.On(side'), q));
  }

  lemma {:induction false} PoolStep(pool: seq<FOrder>, c: Index, s: State, pool': seq<FOrder>, c': Index, s': State,
      side: Side, p: int)
    requires Wf(s) && PoolRep(pool, c, s) && OnlyAt(s, s', side, p) && Frame(pool, c, pool', c', AtPrice(s.On(side), p))
    requires Indexed(pool', c') && Linked(pool', c', AtPrice(s'.On(side), p))
    requires forall id :: id in c' <==> s'.Find(id).Some?
    ensures PoolRep(pool', c', s')
  {
    hide Get, AtPrice, Wf, Frame, Linked, Indexed, OnlyAt;
    forall q ensures Linked(pool', c', AtPrice(s'.bids, q)) {
      if side != Buy || q != p { OtherQueues(pool, c, s, pool', c', s', side, p, Buy, q); }
    }
    forall q ensures Linked(pool', c', AtPrice(s'.asks, q)) {
      if side != Sell || q != p { OtherQueues(pool, c, s, pool', c', s', side, p, Sell, q); }
    }
  }

  lemma {:induction false} HeadOf(pool: seq<FOrder>, c: Index, q: seq<Order>)
    requires Linked(pool, c, q)
    ensures LevelOf(c, q).head == NIL <==> q == []
    ensures q != [] ==> 0 <= LevelOf(c, q).head < |pool| && pool[LevelOf(c, q).head] == Node(c, q, 0)
    ensures q == [] ==> LevelOf(c, q) == EMPTY_LEVEL
  {
    if q != [] { assert NodeAt(pool, c, q, 0); }
  }

  lemma {:induction false} TickKept(st: Store, side: Side, p: int, level: Level, q: int)
    requires st.tick > 0
    ensures var st' := st.Put(side, p, level);
      st'.tick > 0 && st'.TickIndex(q) == st.TickIndex(q) && st'.bandSet == st.bandSet && |st'.ladder| == |st.ladder|
  {
  }

  /** Storing the new level of the one price that changed is all there is to do. */
  lemma {:induction false} StoreStep(st: Store, pool: seq<FOrder>, c: Index, s: State, pool': seq<FOrder>, c': Index,
      s': State, side: Side, p: int)
    requires Wf(s) && Wf(s') && StoreRep(st, c, s) && PoolRep(pool, c, s) && PoolRep(pool', c', s')
    requires OnlyAt(s, s', side, p) && Frame(pool, c, pool', c', AtPrice(s.On(side), p))
    requires AtPrice(s.On(Opposite(side)), p) == []
    ensures StoreRep(st.Put(side, p, LevelOf(c', AtPrice(s'.On(side), p))), c', s')
  {
    hide Get, AtPrice, Wf, Frame, Linked, OnlyAt, PoolRep, LevelOf, Store.TickIndex, Store.Put, PriceRep;
    var level := LevelOf(c', AtPrice(s'.On(side), p));
    var st' := st.Put(side, p, level);
    TickKept(st, side, p, level, p);
    QueueLinked(pool', c', s', side, p);
    HeadOf(pool', c', AtPrice(s'.On(side), p));
    OtherQueues(pool, c, s, pool', c', s', side, p, Opposite(side), p);
    StoreStepHere(st, c, s, c', s', side, p);
    forall q | q != p ensures PriceRep(st', c', s', q) {
      OtherQueues(pool, c, s, pool', c', s', side, p, Opposite(side), q);
      OtherQueues(pool, c, s, pool', c', s', side, p, side, q);
      StoreStepElsewhere(st, c, s, c', s', side, p, level, q);
    }
  }

  /** Storing a level touches no other price. */
  lemma {:induction false} PutElsewhere(st: Store, side: Side, p: int, level: Level, q: int)
    requires st.tick > 0 && q != p
    ensures var st' := st.Put(side, p, level);
      && st'.tick > 0 && st'.TickIndex(q) == st.TickIndex(q)
      && (st.TickIndex(q) >= 0 ==> st'.ladder[st.TickIndex(q)] == st.ladder[st.TickIndex(q)])
      && (q in st'.fbBids <==> q in st.fbBids) && (q in st.fbBids ==> st'.fbBids[q] == st.fbBids[q])
      && (q in st'.fbAsks <==> q in st.fbAsks) && (q in st.fbAsks ==> st'.fbAsks[q] == st.fbAsks[q])
  {
    TickKept(st, side, p, level, q);
    SameTick(st, p, q);
    hide Store.TickIndex;
  }

  lemma {:induction false} StoreStepElsewhere(st: Store, c: Index, s: State, c': Index, s': State, side: Side, p: int,
      level: Level, q: int)
    requires StoreRep(st, c, s) && q != p
    requires AtPrice(s'.bids, q) == AtPrice(s.bids, q) && AtPrice(s'.asks, q) == AtPrice(s.asks, q)
    requires LevelOf(c', AtPrice(s'.bids, q)) == LevelOf(c, AtPrice(s.bids, q))
    requires LevelOf(c', AtPrice(s'.asks, q)) == LevelOf(c, AtPrice(s.asks, q))
    ensures var st' := st.Put(side, p, level); st'.tick > 0 && PriceRep(st', c', s', q)
  {
    PutElsewhere(st, side, p, level, q);
    assert PriceRep(st, c, s, q);
    hide AtPrice, LevelOf, Store.TickIndex, Store.Put, StoreRep;
  }

  lemma {:induction false} StoreStepHere(st: Store, c: Index, s: State, c': Index, s': State, side: Side, p: int)
    requires StoreRep(st, c, s)
    requires AtPrice(s.On(Opposite(side)), p) == [] && AtPrice(s'.On(Opposite(side)), p) == []
    requires LevelOf(c', AtPrice(s'.On(side), p)).head == NIL <==> AtPrice(s'.On(side), p) == []
    ensures var st' := st.Put(side, p, LevelOf(c', AtPrice(s'.On(side), p))); st'.tick > 0 && PriceRep(st', c', s', p)
  {
    TickKept(st, side, p, LevelOf(c', AtPrice(s'.On(side), p)), p);
    assert PriceRep(st, c, s, p);
    hide AtPrice, LevelOf, Store.TickIndex, StoreRep;
  }

  lemma {:induction false} SameTick(st: Store, p: int, q: int)
    requires st.tick > 0
    ensures st.TickIndex(p) == st.TickIndex(q) >= 0 ==> p == q
  {
    if st.TickIndex(p) == st.TickIndex(q) >= 0 {
      PriceOfTick(st, p);
      PriceOfTick(st, q);
    }
  }
}
