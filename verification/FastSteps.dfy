/** What each update of the optimised book does to its invariant, on values. */
module FastSteps {
  import opened Book
  import opened BookLemmas
  import opened BookEvents
  import opened Matching
  import opened Arena
  import opened Ladder

  /** The whole representation invariant except the cursors. */
  ghost predicate Rep(st: Store, pool: seq<FOrder>, c: Index, free: seq<nat>, s: State) {
    && Wf(s) && StoreRep(st, c, s) && PoolRep(pool, c, s) && FreeRep(pool, c, free)
    && (!st.bandSet ==> st.ladder == [] && s.bids == [] && s.asks == [])
  }

  /** No ladder bid is above the bid cursor and no ladder ask below the ask cursor. */
  ghost predicate Cursors(st: Store, bid: int, ask: int, s: State)
    requires st.tick > 0
  {
    forall p | st.TickIndex(p) >= 0 ::
      (AtPrice(s.bids, p) != [] ==> st.TickIndex(p) <= bid) && (AtPrice(s.asks, p) != [] ==> ask <= st.TickIndex(p))
  }

  // ---------------------------------------------------------------- an order leaves

  /** The level of slot `x` after the slot has left it. */
  function LevelWithout(pool: seq<FOrder>, x: int, level: Level): Level
    requires 0 <= x < |pool|
  {
    Level(Wrap(level.total - pool[x].open), if pool[x].prev == NIL then pool[x].next else level.head,
          if pool[x].next == NIL then pool[x].prev else level.tail)
  }

  lemma {:induction false} QueueWithout(s: State, id: nat)
    requires Wf(s) && s.Find(id).Some?
    ensures var o := s.Find(id).value; var s' := s.With(o.side, Remove(s.On(o.side), id));
      && OnlyAt(s, s', o.side, o.price)
      && AtPrice(s'.On(o.side), o.price) == Remove(AtPrice(s.On(o.side), o.price), id)
      && Get(AtPrice(s.On(o.side), o.price), id) == Some(o)
      && UniqueIds(AtPrice(s.On(o.side), o.price))
      && AtPrice(s.On(Opposite(o.side)), o.price) == []
      && forall x :: s'.Find(x).Some? <==> x != id && s.Find(x).Some?
  {
    FindSide(s, id);
    var o := s.Find(id).value;
    var l := s.On(o.side);
    hide AtPrice, Remove, Sorted, UniqueIds, Get;
    AtPriceKeeps(l, o.side, o.price);
    forall q ensures AtPrice(Remove(l, id), q) == Remove(AtPrice(l, q), id) { AtPriceAfterRemove(l, id, q); }
    forall q | q != o.price ensures AtPrice(Remove(l, id), q) == AtPrice(l, q) {
      GetAtPrice(l, id, q);
      AbsentAtPrice(AtPrice(l, q), id, q, 0);
    }
    GetAtPrice(l, id, o.price);
    OneSided(s, o.price);
    EmptyHasNone(id);
    forall x ensures Get(Remove(l, id), x) == if x == id then None else Get(l, x) { GetAfterRemove(l, id, x); }
  }

  lemma {:induction false} EmptyHasNone(id: nat)
    ensures Get([], id).None?
  {
  }

  /** In the pool, removing an order is unlinking its slot and freeing it. */
  lemma {:induction false} PoolRemove(pool: seq<FOrder>, c: Index, free: seq<nat>, s: State, id: nat)
    requires Wf(s) && PoolRep(pool, c, s) && FreeRep(pool, c, free) && s.Find(id).Some?
    ensures var o := s.Find(id).value; var q := AtPrice(s.On(o.side), o.price);
      var s' := s.With(o.side, Remove(s.On(o.side), id));
      && id in c && Detachable(pool, c[id]) && pool[c[id]].id == id && pool[c[id]].side == o.side
      && pool[c[id]].price == o.price && pool[c[id]].open == o.open
      && var pool', c' := Unlinked(pool, c[id]), c - {id};
      && Wf(s') && OnlyAt(s, s', o.side, o.price) && Frame(pool, c, pool', c', q)
      && AtPrice(s.On(Opposite(o.side)), o.price) == []
      && PoolRep(pool', c', s') && FreeRep(pool', c', free + [c[id]])
      && LevelOf(c', AtPrice(s'.On(o.side), o.price)) == LevelWithout(pool, c[id], LevelOf(c, q))
  {
    hide AtPrice, Get, Remove, Wf, Frame, FreeRep, Linked, Unlinked, OnlyAt, UniqueIds, Total;
    FindSide(s, id);
    QueueWithout(s, id);
    var o := s.Find(id).value;
    var q := AtPrice(s.On(o.side), o.price);
    ShrinkKeeps(s, o.side, id, 0);
    QueueLinked(pool, c, s, o.side, o.price);
    var k := Position(q, id, 0);
    UnlinkLinked(pool, c, q, k);
    UnlinkEnds(pool, c, q, k);
    UnlinkFrame(pool, c, q, k);
    FreeAfterUnlink(pool, c, free, id);
    TotalAfterRemove(q, id);
    WrapMinus(Total(q), o.open);
    PoolStep(pool, c, s, Unlinked(pool, c[id]), c - {id}, s.With(o.side, Remove(s.On(o.side), id)), o.side, o.price);
  }

  lemma {:induction false} LevelFound(st: Store, c: Index, s: State, side: Side, p: int)
    requires Wf(s) && StoreRep(st, c, s) && AtPrice(s.On(Opposite(side)), p) == []
    ensures st.LevelAt(side, p) == LevelOf(c, AtPrice(s.On(side), p))
  {
    assert PriceRep(st, c, s, p);
    assert LevelOf(c, []) == EMPTY_LEVEL;
  }

  lemma {:induction false} RemoveRep(st: Store, pool: seq<FOrder>, c: Index, free: seq<nat>, s: State, id: nat)
    requires Rep(st, pool, c, free, s) && s.Find(id).Some?
    ensures var o := s.Find(id).value;
      && id in c && Detachable(pool, c[id])
      && var level := LevelWithout(pool, c[id], st.LevelAt(o.side, o.price));
      && Rep(st.Put(o.side, o.price, level), Unlinked(pool, c[id]), c - {id}, free + [c[id]],
        s.With(o.side, Remove(s.On(o.side), id)))
  {
    var o := s.Find(id).value;
    var s' := s.With(o.side, Remove(s.On(o.side), id));
    PoolRemove(pool, c, free, s, id);
    LevelFound(st, c, s, o.side, o.price);
    BandSetOnceUsed(st, s, id);
    hide AtPrice, Get, Remove, Wf, Frame, FreeRep, StoreRep, PoolRep, Unlinked, OnlyAt, LevelOf, LevelWithout,
      Detachable, Store.LevelAt;
    StoreStep(st, pool, c, s, Unlinked(pool, c[id]), c - {id}, s', o.side, o.price);
    TickKept(st, o.side, o.price, LevelWithout(pool, c[id], st.LevelAt(o.side, o.price)), o.price);
  }

  // ---------------------------------------------------------------- an order shrinks

  lemma {:induction false} QueueShrunk(s: State, id: nat, open: nat)
    requires Wf(s) && s.Find(id).Some?
    ensures var o := s.Find(id).value; var s' := s.With(o.side, SetOpen(s.On(o.side), id, open));
      && OnlyAt(s, s', o.side, o.price)
      && AtPrice(s'.On(o.side), o.price) == SetOpen(AtPrice(s.On(o.side), o.price), id, open)
      && Get(AtPrice(s.On(o.side), o.price), id) == Some(o)
      && UniqueIds(AtPrice(s.On(o.side), o.price))
      && AtPrice(s.On(Opposite(o.side)), o.price) == []
      && forall x :: s'.Find(x).Some? <==> s.Find(x).Some?
  {
    FindSide(s, id);
    QueueWithout(s, id);
    var o := s.Find(id).value;
    var l := s.On(o.side);
    hide AtPrice, SetOpen, Remove, Sorted, UniqueIds, Get;
    forall q ensures AtPrice(SetOpen(l, id, open), q) == SetOpen(AtPrice(l, q), id, open) {
      AtPriceAfterSetOpen(l, id, open, q);
    }
    forall q | q != o.price ensures AtPrice(SetOpen(l, id, open), q) == AtPrice(l, q) {
      GetAtPrice(l, id, q);
      AbsentAtPrice(AtPrice(l, q), id, q, open);
    }
    forall x ensures Get(SetOpen(l, id, open), x).Some? <==> Get(l, x).Some? { GetAfterSetOpen(l, id, open, x); }
  }

  lemma {:induction false} PoolShrink(pool: seq<FOrder>, c: Index, free: seq<nat>, s: State, id: nat, open: nat)
    requires Wf(s) && PoolRep(pool, c, s) && FreeRep(pool, c, free) && s.Find(id).Some?
      && 0 < open <= s.Find(id).value.open
    ensures var o := s.Find(id).value; var q := AtPrice(s.On(o.side), o.price);
      var s' := s.With(o.side, SetOpen(s.On(o.side), id, open));
      && id in c && 0 <= c[id] < |pool| && pool[c[id]].id == id && pool[c[id]].side == o.side
      && pool[c[id]].price == o.price && pool[c[id]].open == o.open
      && var pool' := pool[c[id] := pool[c[id]].(open := open)];
      && Wf(s') && OnlyAt(s, s', o.side, o.price) && Frame(pool, c, pool', c, q)
      && AtPrice(s.On(Opposite(o.side)), o.price) == []
      && PoolRep(pool', c, s') && FreeRep(pool', c, free)
      && LevelOf(c, AtPrice(s'.On(o.side), o.price))
           == var level := LevelOf(c, q); Level(Wrap(level.total - (o.open - open)), level.head, level.tail)
  {
    hide AtPrice, Get, SetOpen, Wf, Frame, Linked, OnlyAt, UniqueIds, Total;
    FindSide(s, id);
    QueueShrunk(s, id, open);
    var o := s.Find(id).value;
    var q := AtPrice(s.On(o.side), o.price);
    ShrinkKeeps(s, o.side, id, open);
    QueueLinked(pool, c, s, o.side, o.price);
    var k := Position(q, id, open);
    SetOpenLinked(pool, c, q, k, open);
    TotalAfterSetOpen(q, id, open);
    WrapMinus(Total(q), o.open - open);
    PoolStep(pool, c, s, pool[c[id] := pool[c[id]].(open := open)], c, s.With(o.side, SetOpen(s.On(o.side), id, open)),
      o.side, o.price);
  }

  lemma {:induction false} ShrinkRep(st: Store, pool: seq<FOrder>, c: Index, free: seq<nat>, s: State, id: nat,
      open: nat)
    requires Rep(st, pool, c, free, s) && s.Find(id).Some? && 0 < open <= s.Find(id).value.open
    ensures var o := s.Find(id).value;
      && id in c && 0 <= c[id] < |pool|
      && var level := st.LevelAt(o.side, o.price);
      && Rep(st.Put(o.side, o.price, level.(total := Wrap(level.total - (o.open - open)))),
             pool[c[id] := pool[c[id]].(open := open)], c, free, s.With(o.side, SetOpen(s.On(o.side), id, open)))
  {
    var o := s.Find(id).value;
    var s' := s.With(o.side, SetOpen(s.On(o.side), id, open));
    PoolShrink(pool, c, free, s, id, open);
    LevelFound(st, c, s, o.side, o.price);
    BandSetOnceUsed(st, s, id);
    hide AtPrice, Get, SetOpen, Wf, Frame, FreeRep, StoreRep, PoolRep, OnlyAt, LevelOf, Store.LevelAt, Wrap;
    StoreStep(st, pool, c, s, pool[c[id] := pool[c[id]].(open := open)], c, s', o.side, o.price);
    var level := st.LevelAt(o.side, o.price);
    TickKept(st, o.side, o.price, level.(total := Wrap(level.total - (o.open - open))), o.price);
  }

  lemma {:induction false} BandSetOnceUsed(st: Store, s: State, id: nat)
    requires s.Find(id).Some? && (!st.bandSet ==> s.bids == [] && s.asks == [])
    ensures st.bandSet
  {
  }

  // ---------------------------------------------------------------- an order comes to rest

  lemma {:induction false} QueueJoined(s: State, o: Order)
    requires Wf(s) && o.price > 0 && o.open > 0 && s.Find(o.id).None? && !WouldCross(s, o.side, o.price)
    ensures var s' := Rest(s, o.id, o.side, o.price, o.open);
      && Wf(s') && OnlyAt(s, s', o.side, o.price)
      && AtPrice(s'.On(o.side), o.price) == AtPrice(s.On(o.side), o.price) + [o]
      && UniqueIds(AtPrice(s.On(o.side), o.price))
      && AtPrice(s.On(Opposite(o.side)), o.price) == []
      && forall x :: s'.Find(x).Some? <==> x == o.id || s.Find(x).Some?
  {
    var l, opp := s.On(o.side), s.On(Opposite(o.side));
    NothingBeyondBest(opp, Opposite(o.side), o.price);
    RestKeeps(s, o.id, o.side, o.price, o.open);
    hide AtPrice, Insert, Sorted, UniqueIds, Get, Wf;
    AtPriceKeeps(l, o.side, o.price);
    forall q ensures AtPrice(Insert(l, o), q) == if q == o.price then AtPrice(l, q) + [o] else AtPrice(l, q) {
      AtPriceAfterInsert(l, o, q);
    }
    forall x ensures Get(Insert(l, o), x) == if x == o.id then Some(o) else Get(l, x) { GetAfterInsert(l, o, x); }
  }

  /** The level after a new order in slot `x` has joined it. */
  function LevelWith(level: Level, x: nat, open: nat): Level {
    Level(Wrap(level.total + open), if level.tail == NIL then x else level.head, x)
  }

  lemma {:induction false} PoolJoin(pool: seq<FOrder>, c: Index, s: State, o: Order, x: nat, pool1: seq<FOrder>)
    requires Wf(s) && PoolRep(pool, c, s) && Allocated(pool, c, x, pool1)
    requires o.price > 0 && o.open > 0 && s.Find(o.id).None? && !WouldCross(s, o.side, o.price)
    ensures var q := AtPrice(s.On(o.side), o.price); var s' := Rest(s, o.id, o.side, o.price, o.open);
      var tail, c' := LevelOf(c, q).tail, c[o.id := x];
      && NIL <= tail < |pool1| && tail != x
      && var pool' := Appended(pool1, o, x, tail);
      && Wf(s') && OnlyAt(s, s', o.side, o.price) && Frame(pool, c, pool', c', q)
      && AtPrice(s.On(Opposite(o.side)), o.price) == []
      && PoolRep(pool', c', s')
      && LevelOf(c', AtPrice(s'.On(o.side), o.price)) == LevelWith(LevelOf(c, q), x, o.open)
  {
    hide AtPrice, Get, Insert, Wf, Frame, Linked, OnlyAt, UniqueIds, Total, Appended, Indexed, WouldCross;
    QueueJoined(s, o);
    var q := AtPrice(s.On(o.side), o.price);
    QueueLinked(pool, c, s, o.side, o.price);
    AppendLinked(pool, c, q, o, x, pool1);
    AppendFrame(pool, c, q, o, x, pool1);
    TailOf(pool, c, q, x, pool1);
    TotalAppend(q, o);
    WrapMinus(Total(q), o.open);
    PoolStep(pool, c, s, Appended(pool1, o, x, LevelOf(c, q).tail), c[o.id := x],
      Rest(s, o.id, o.side, o.price, o.open), o.side, o.price);
  }

  lemma {:induction false} RestRep(st: Store, pool: seq<FOrder>, c: Index, free: seq<nat>, s: State, o: Order, x: nat,
      pool1: seq<FOrder>, free1: seq<nat>)
    requires Rep(st, pool, c, free, s) && st.bandSet && Allocated(pool, c, x, pool1)
    requires o.price > 0 && o.open > 0 && s.Find(o.id).None? && !WouldCross(s, o.side, o.price)
    requires forall tail | NIL <= tail < |pool1|
      && tail != x :: FreeRep(Appended(pool1, o, x, tail), c[o.id := x], free1)
    ensures var level := st.LevelAt(o.side, o.price);
      && NIL <= level.tail < |pool1| && level.tail != x
      && Rep(st.Put(o.side, o.price, LevelWith(level, x, o.open)), Appended(pool1, o, x, level.tail), c[o.id := x],
        free1,
             Rest(s, o.id, o.side, o.price, o.open))
  {
    var s' := Rest(s, o.id, o.side, o.price, o.open);
    assert st.tick > 0 && x < |pool1|;
    hide AtPrice, Get, Insert, Wf, Frame, FreeRep, StoreRep, PoolRep, OnlyAt, LevelOf, Store.LevelAt, Appended,
      LevelWith, Allocated, WouldCross;
    PoolJoin(pool, c, s, o, x, pool1);
    LevelFound(st, c, s, o.side, o.price);
    var pool' := Appended(pool1, o, x, st.LevelAt(o.side, o.price).tail);
    StoreStep(st, pool, c, s, pool', c[o.id := x], s', o.side, o.price);
    TickKept(st, o.side, o.price, LevelWith(st.LevelAt(o.side, o.price), x, o.open), o.price);
  }

  /** Before the first order rests there is no band; setting it changes nothing. */
  lemma {:induction false} BandRep(st: Store, pool: seq<FOrder>, c: Index, free: seq<nat>, s: State, base: int, n: nat)
    requires Rep(st, pool, c, free, s) && !st.bandSet
    ensures Rep(st.(bandSet := true, base := base, ladder := seq(n, _ => EMPTY_LEVEL)), pool, c, free, s)
    ensures Cursors(st.(bandSet := true, base := base, ladder := seq(n, _ => EMPTY_LEVEL)), -1, n, s)
  {
    var st' := st.(bandSet := true, base := base, ladder := seq(n, _ => EMPTY_LEVEL));
    forall p ensures PriceRep(st', c, s, p) {
      assert PriceRep(st, c, s, p);
      assert LevelOf(c, []) == EMPTY_LEVEL;
    }
  }
}
