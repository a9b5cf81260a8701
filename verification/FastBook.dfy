/**
 The optimised book: a price ladder whose best prices are found by cursors, ordered maps for the other prices, a pool of
 orders that are linked into queues, a list of free slots, and a hash index by order id.

 `spec` is the book as module `Book` sees it, and `Valid` the representation invariant. Every method is proved to
 do to `spec`, to the listener's event log and to its caller exactly what `Book.Apply` does.
 */
module OptimisedBook {
  import opened Book
  import opened BookLemmas
  import opened BookEvents
  import opened Matching
  import opened Snapshots
  import opened Arena
  import opened Ladder
  import opened FastSteps
  import opened FastConsume
  import opened FastViews
  import opened Flat

  // ---------------------------------------------------------------- allocation

  function AllocSlot(pool: seq<FOrder>, free: seq<nat>): nat {
    if free != [] then free[|free| - 1] else |pool|
  }

  function AllocFree(free: seq<nat>): seq<nat> {
    if free != [] then free[..|free| - 1] else []
  }

  function AllocPool(pool: seq<FOrder>, free: seq<nat>, node: FOrder): (pool1: seq<FOrder>)
    requires free != [] ==> free[|free| - 1] < |pool|
    ensures AllocSlot(pool, free) < |pool1| && pool1[AllocSlot(pool, free)] == node
  {
    if free != [] then pool[free[|free| - 1] := node] else pool + [node]
  }

  lemma {:induction false} AllocRep(pool: seq<FOrder>, c: Index, free: seq<nat>, o: Order, node: FOrder)
    requires Indexed(pool, c) && FreeRep(pool, c, free) && o.id !in c
    ensures free != [] ==> free[|free| - 1] < |pool|
    ensures var x, pool1 := AllocSlot(pool, free), AllocPool(pool, free, node);
      && Allocated(pool, c, x, pool1)
      && forall tail | NIL <= tail < |pool1|
        && tail != x :: FreeRep(Appended(pool1, o, x, tail), c[o.id := x], AllocFree(free))
  {
    FreeAfterAppend(pool, c, free, o, NIL);
    if free != [] { assert free[|free| - 1] in free; }
    var x, pool1 := AllocSlot(pool, free), AllocPool(pool, free, node);
    forall tail | NIL <= tail < |pool1| && tail != x
      ensures FreeRep(Appended(pool1, o, x, tail), c[o.id := x], AllocFree(free))
    {
      FreeAfterAppend(pool, c, free, o, tail);
      if free != [] { assert Appended(pool1, o, x, tail) == Appended(pool, o, x, tail); }
    }
    if free != [] { assert Allocated(pool, c, x, pool); }
  }

  /** The representation invariant on values. */
  ghost predicate Good(st: Store, pool: seq<FOrder>, c: Index, free: seq<nat>, bid: int, ask: int, s: State) {
    Rep(st, pool, c, free, s) && Cursors(st, bid, ask, s) && -1 <= bid && ask <= |st.ladder|
  }

  class FastBook {
    const tick: int
    const bandHalfTicks: nat
    var bandSet: bool
    var base: int
    var ladder: seq<Level>
    var fbBids: map<int, Level>
    var fbAsks: map<int, Level>
    var bidCursor: int
    var askCursor: int
    var pool: seq<FOrder>
    var free: seq<nat>
    const index: FlatMap
    var nextMatchId: nat
    var events: seq<Event>
    ghost var spec: State

    function Levels(): Store
      reads this
    {
      Store(tick, bandSet, base, ladder, fbBids, fbAsks)
    }

    ghost predicate Valid()
      reads this, index
    {
      && index.Valid()
      && Good(Levels(), pool, index.contents, free, bidCursor, askCursor, spec)
      && nextMatchId == spec.nextMatch
    }

    constructor (tick: int, bandHalfTicks: nat, expectedOrders: nat)
      requires tick > 0
      ensures Valid() && spec == EMPTY && events == [] && fresh(index)
      ensures this.tick == tick && this.bandHalfTicks == bandHalfTicks
    {
      this.tick, this.bandHalfTicks := tick, bandHalfTicks;
      bandSet, base, ladder, fbBids, fbAsks := false, 0, [], map[], map[];
      bidCursor, askCursor := -1, 0;
      pool, free, nextMatchId, events, spec := [], [], 1, [], EMPTY;
      index := new FlatMap(expectedOrders * 2);
    }

    // -------------------------------------------------------------- levels and slots

    /** Stores a level back, and erases it if it is an empty fallback level. */
    method StoreLevel(side: Side, price: int, level: Level)
      requires tick > 0
      modifies `ladder, `fbBids, `fbAsks
      ensures Levels() == old(Levels()).Put(side, price, level)
    {
      var t := Levels().TickIndex(price);
      if t >= 0 {
        ladder := ladder[t := level];
      } else if level.head == NIL {
        if side.Buy? { fbBids := fbBids - {price}; } else { fbAsks := fbAsks - {price}; }
      } else {
        if side.Buy? { fbBids := fbBids[price := level]; } else { fbAsks := fbAsks[price := level]; }
      }
    }

    method AllocOrder(id: nat, side: Side, price: int, qty: nat) returns (idx: nat)
      requires free != [] ==> free[|free| - 1] < |pool|
      modifies `pool, `free
      ensures idx == AllocSlot(old(pool), old(free)) && free == AllocFree(old(free))
      ensures pool == AllocPool(old(pool), old(free), FOrder(id, price, qty, NIL, NIL, side))
    {
      if free != [] {
        idx := free[|free| - 1];
        free := free[..|free| - 1];
      } else {
        idx := |pool|;
        pool := pool + [FOrder(0, 0, 0, NIL, NIL, Buy)];
      }
      pool := pool[idx := FOrder(id, price, qty, NIL, NIL, side)];
    }

    method Unlink(level: Level, idx: nat) returns (level': Level)
      requires Detachable(pool, idx)
      modifies `pool
      ensures pool == Unlinked(old(pool), idx)
      ensures var o := old(pool)[idx];
        level' == Level(level.total, if o.prev == NIL then o.next else level.head, if o.next == NIL then o.prev
          else level.tail)
    {
      level' := level;
      var o := pool[idx];
      if o.prev != NIL {
        pool := pool[o.prev := pool[o.prev].(next := o.next)];
      } else {
        level' := level'.(head := o.next);
      }
      if o.next != NIL {
        pool := pool[o.next := pool[o.next].(prev := o.prev)];
      } else {
        level' := level'.(tail := o.prev);
      }
      pool := pool[idx := pool[idx].(prev := NIL, next := NIL)];
    }

    // -------------------------------------------------------------- orders come and go

    method SetBand(price: int)
      requires Valid()
      modifies `base, `ladder, `bidCursor, `askCursor, `bandSet
      ensures Valid() && bandSet
    {
      hide Good, FlatMap.Valid;
      if !bandSet {
        BandGood(Levels(), pool, index.contents, free, bidCursor, askCursor, spec, price - bandHalfTicks * tick,
          2 * bandHalfTicks + 1);
        base := price - bandHalfTicks * tick;
        ladder := seq(2 * bandHalfTicks + 1, _ => EMPTY_LEVEL);
        bidCursor := -1;
        askCursor := |ladder|;
        bandSet := true;
      }
    }

    method Rest(id: nat, side: Side, price: int, qty: nat)
      requires Valid() && price > 0 && qty > 0 && spec.Find(id).None? && !WouldCross(spec, side, price)
      modifies this, index
      ensures Valid() && spec == Book.Rest(old(spec), id, side, price, qty)
      ensures events == old(events)
    {
      hide *;
      SetBand(price);
      RestInBand(id, side, price, qty);
    }

    method RestInBand(id: nat, side: Side, price: int, qty: nat)
      requires Valid() && bandSet && price > 0 && qty > 0 && spec.Find(id).None? && !WouldCross(spec, side, price)
      modifies `pool, `free, `ladder, `fbBids, `fbAsks, `bidCursor, `askCursor, `spec, index
      ensures Valid() && spec == Book.Rest(old(spec), id, side, price, qty)
    {
      hide Good, FlatMap.Valid, Store.Put, Store.TickIndex, Store.LevelAt, Appended, AllocFree, AllocPool, AllocSlot;
      hide WouldCross, Get, Insert, Wrap, BidCursor, AskCursor;
      ghost var o := Order(id, side, price, qty);
      ghost var t := RestGood(Levels(), pool, index.contents, free, bidCursor, askCursor, spec, o);
      var level := Levels().LevelAt(side, price);
      var idx := AllocOrder(id, side, price, qty);
      LinkIn(o, idx, level);
      StoreLevel(side, price, Level(Wrap(level.total + qty), if level.tail == NIL then idx else level.head, idx));
      index.Insert(id, idx);
      MoveCursors(side, price);
      spec := Book.Rest(spec, id, side, price, qty);
    }

    method MoveCursors(side: Side, price: int)
      requires tick > 0
      modifies `bidCursor, `askCursor
      ensures bidCursor == BidCursor(side, Levels().TickIndex(price), old(bidCursor))
      ensures askCursor == AskCursor(side, Levels().TickIndex(price), old(askCursor))
    {
      var t := Levels().TickIndex(price);
      if t >= 0 {
        if side == Buy && t > bidCursor { bidCursor := t; }
        if side == Sell && t < askCursor { askCursor := t; }
      }
    }

    /** Links a freshly allocated slot to the end of its level. */
    method LinkIn(ghost o: Order, idx: nat, level: Level)
      requires idx < |pool| && NIL <= level.tail < |pool| && level.tail != idx
      requires pool[idx] == FOrder(o.id, o.price, o.open, NIL, NIL, o.side)
      modifies `pool
      ensures pool == Appended(old(pool), o, idx, level.tail)
    {
      pool := pool[idx := pool[idx].(prev := level.tail)];
      if level.tail != NIL {
        pool := pool[level.tail := pool[level.tail].(next := idx)];
      }
    }

    method RemoveResting(idx: nat, ghost id: nat)
      requires Valid() && id in index.contents && index.contents[id] == idx
      modifies this, index
      ensures Valid() && events == old(events)
      ensures old(spec).Find(id).Some? && var side := old(spec).Find(id).value.side;
        spec == old(spec).With(side, Remove(old(spec).On(side), id))
    {
      hide Good, FlatMap.Valid, Store.Put, Store.TickIndex, Store.LevelAt, Unlinked, Get, Remove;
      SlotOf(Levels(), pool, index.contents, free, bidCursor, askCursor, spec, id);
      RemoveGood(Levels(), pool, index.contents, free, bidCursor, askCursor, spec, id);
      ghost var order := spec.Find(id).value;
      var o := pool[idx];
      var level := Levels().LevelAt(o.side, o.price);
      level := level.(total := Wrap(level.total - o.open));
      level := Unlink(level, idx);
      var erased := index.Erase(o.id);
      free := free + [idx];
      StoreLevel(o.side, o.price, level);
      spec := spec.With(order.side, Remove(spec.On(order.side), id));
    }

    // -------------------------------------------------------------- the best price

    /** Best ladder tick with bids, or -1: a scan down from the cursor, which it leaves there. */
    method LadderBestBid() returns (t: int)
      requires Valid() && bandSet
      modifies `bidCursor
      ensures Valid() && LadderBest(Levels(), spec, Buy, t)
    {
      hide Good, FlatMap.Valid, Shows, LadderBest;
      ghost var st := Levels();
      t := if bidCursor < |ladder| - 1 then bidCursor else |ladder| - 1;
      CursorRange(st, pool, index.contents, free, bidCursor, askCursor, spec);
      while t >= 0
        invariant -1 <= t < |ladder| && bidCursor == old(bidCursor)
        invariant forall u | t < u < |ladder| && u <= bidCursor :: !Shows(st, spec, Buy, u)
      {
        GoodShows(st, pool, index.contents, free, bidCursor, askCursor, spec, Buy, t);
        var level := ladder[t];
        if level.head != NIL && pool[level.head].side == Buy { break; }
        t := t - 1;
      }
      GoodBest(st, pool, index.contents, free, bidCursor, askCursor, spec, Buy, t);
      bidCursor := t;
    }

    /** Best ladder tick with asks, or -1: a scan up from the cursor, which it leaves there. */
    method LadderBestAsk() returns (t: int)
      requires Valid() && bandSet
      modifies `askCursor
      ensures Valid() && LadderBest(Levels(), spec, Sell, t)
    {
      hide Good, FlatMap.Valid, Shows, LadderBest;
      ghost var st := Levels();
      t := if askCursor > 0 then askCursor else 0;
      CursorRange(st, pool, index.contents, free, bidCursor, askCursor, spec);
      while t < |ladder|
        invariant 0 <= t <= |ladder| && askCursor == old(askCursor)
        invariant forall u | 0 <= u < t && askCursor <= u :: !Shows(st, spec, Sell, u)
      {
        GoodShows(st, pool, index.contents, free, bidCursor, askCursor, spec, Sell, t);
        var level := ladder[t];
        if level.head != NIL && pool[level.head].side == Sell { break; }
        t := t + 1;
      }
      GoodBest(st, pool, index.contents, free, bidCursor, askCursor, spec, Sell, t);
      askCursor := t;
      if t == |ladder| { t := -1; }
    }

    /** The best level of a side, in the ladder (`t >= 0`) or in the fallback map. */
    method BestLevel(side: Side) returns (found: bool, price: int, t: int)
      requires Valid()
      modifies `bidCursor, `askCursor
      ensures Valid() && tick > 0
      ensures found == (spec.On(side) != [])
      ensures found ==> price == spec.On(side)[0].price && t == Levels().TickIndex(price)
    {
      hide Good, FlatMap.Valid, Shows, LadderBest, Store.TickIndex;
      t := -1;
      if bandSet {
        if side.Buy? { t := LadderBestBid(); } else { t := LadderBestAsk(); }
      } else {
        NoLadder(Levels(), pool, index.contents, free, bidCursor, askCursor, spec, side);
      }
      GoodOverall(Levels(), pool, index.contents, free, bidCursor, askCursor, spec, side, t);
      found, price := t >= 0, if t >= 0 then Levels().PriceAt(t) else 0;
      var fb := Levels().Fallback(side).Keys;
      if fb != {} && (!found || Better(side, BestOf(side, fb), price)) {
        found, price, t := true, BestOf(side, fb), -1;
      }
    }

    method BestPrice(side: Side) returns (p: Option<int>)
      requires Valid()
      modifies `bidCursor, `askCursor
      ensures Valid() && p == if spec.On(side) == [] then None else Some(spec.On(side)[0].price)
    {
      hide *;
      var found, price, _ := BestLevel(side);
      p := if found then Some(price) else None;
    }

    method CrossesNow(side: Side, price: int) returns (b: bool)
      requires Valid()
      modifies `bidCursor, `askCursor
      ensures Valid() && b == WouldCross(spec, side, price)
    {
      hide Good, FlatMap.Valid;
      var opposite := BestPrice(Opposite(side));
      b := opposite.Some? && Crosses(side, price, opposite.value);
    }

    // -------------------------------------------------------------- matching

    /** Consumes the queue of one level from its front. */
    method ConsumeLevel(level: Level, id: nat, side: Side, price: int, want: nat, ghost j: Job)
      returns (level': Level, filled: nat, ghost done: seq<Event>)
      requires j.Started() && j.id == id && j.side == side && j.want == want && j.p == price && want > 0
      requires index.Valid() && nextMatchId == spec.nextMatch && j.Queue(spec) != []
      requires j.At(spec, pool, index.contents, free, level, 0, [])
      modifies `pool, `free, `nextMatchId, `events, `spec, index
      ensures index.Valid() && nextMatchId == spec.nextMatch
      ensures j.At(spec, pool, index.contents, free, level', filled, done) && 0 < filled <= want
      ensures events == old(events) + done
    {
      hide Job.At, Job.Started, Job.Queue, FlatMap.Valid, Unlinked, Wrap;
      level', filled, done := level, 0, [];
      JobHead(j, spec, pool, index.contents, free, level', filled, done);
      while filled < want && level'.head != NIL
        invariant index.Valid() && nextMatchId == spec.nextMatch && filled <= want
        invariant j.At(spec, pool, index.contents, free, level', filled, done) && events == old(events) + done
        invariant filled == 0 ==> level'.head != NIL
      {
        JobHead(j, spec, pool, index.contents, free, level', filled, done);
        var idx := level'.head;
        var o := pool[idx];
        var exec := if want - filled < o.open then want - filled else o.open;
        var e := Executed(o.id, id, side, price, exec, nextMatchId);
        ghost var s' := spec;
        if exec < o.open {
          s' := ConsumePart(j, spec, pool, index.contents, free, level', filled, done);
        } else {
          s' := ConsumeWhole(j, spec, pool, index.contents, free, level', filled, done);
        }
        pool := pool[idx := o.(open := o.open - exec)];
        level' := level'.(total := Wrap(level'.total - exec));
        filled := filled + exec;
        events, done, spec := events + [e], done + [e], s';
        nextMatchId := nextMatchId + 1;
        if o.open - exec == 0 {
          var erased := index.Erase(o.id);
          level' := Unlink(level', idx);
          free := free + [idx];
        }
      }
    }

    /** Best level after best level while the limit is crossed. */
    method Match(id: nat, side: Side, limit: int, qty: nat) returns (filled: nat)
      requires Valid()
      modifies this, index
      ensures Valid()
      ensures var t := Trade(old(spec), id, side, limit, qty);
        spec == t.s && filled == t.reply.filled && events == old(events) + t.events
    {
      hide Good, FlatMap.Valid, Trade, Book.Match, Remaining, Store.TickIndex, Store.LevelAt, Store.Put, Job.At,
        Job.Started, Job.Queue;
      filled := 0;
      ghost var t, done: seq<Event> := Trade(spec, id, side, limit, qty), [];
      RemainingStarts(spec, id, side, limit, qty);
      while filled < qty
        invariant Valid() && filled <= qty
        invariant events == old(events) + done && Remaining(t, filled, done, spec, id, side, limit, qty - filled)
        decreases qty - filled
      {
        var found, price, at := BestLevel(Opposite(side));
        if !found || !Crosses(side, limit, price) { break; }
        ghost var s0 := spec;
        var got;
        ghost var more;
        got, more := MatchLevel(id, side, limit, price, qty - filled);
        RemainingCompose(t, filled, done, s0, id, side, limit, qty - filled, got, more, spec);
        assert old(events) + done + more == old(events) + (done + more);
        done := done + more;
        filled := filled + got;
      }
      RemainingEnds(t, filled, done, spec, id, side, limit, qty - filled);
    }

    /** Consumes the best level and stores it back. */
    method MatchLevel(id: nat, side: Side, limit: int, price: int, want: nat) returns (got: nat, ghost done: seq<Event>)
      requires Valid() && want > 0 && WouldCross(spec, side, limit) && price == spec.On(Opposite(side))[0].price
      modifies this, index
      ensures Valid() && 0 < got <= want && events == old(events) + done
      ensures Remaining(Trade(old(spec), id, side, limit, want), got, done, spec, id, side, limit, want - got)
    {
      hide Good, FlatMap.Valid, Trade, Remaining, Store.TickIndex, Store.LevelAt, Store.Put, Job.At, Job.Started,
        Job.Queue, WouldCross;
      ghost var j := Job(id, side, limit, want, spec, price, pool, index.contents);
      ghost var st0, free0 := Levels(), free;
      GoodStart(st0, free, bidCursor, askCursor, j);
      var level := Levels().LevelAt(Opposite(side), price);
      level, got, done := ConsumeLevel(level, id, side, price, want, j);
      GoodEnd(st0, free0, bidCursor, askCursor, j, spec, pool, index.contents, free, level, got, done);
      StoreLevel(Opposite(side), price, level);
    }

    // -------------------------------------------------------------- commands

    /** Match, then rest what is left. */
    method Admit(id: nat, side: Side, price: int, qty: nat) returns (filled: nat, resting: nat)
      requires Valid() && price > 0 && qty > 0 && spec.Find(id).None?
      modifies this, index
      ensures Valid()
      ensures var t := Enter(old(spec), id, side, price, qty);
        spec == t.s && t.reply == AddReply(Ok, filled, resting) && events == old(events) + t.events
    {
      hide FlatMap.Valid, Trade, Book.Match, Get, Insert, Wf, StoreRep, PoolRep, FreeRep, Cursors;
      TradeStops(spec, id, side, price, qty);
      TradeAddsNoIds(spec, id, side, price, qty, id);
      ghost var t := Trade(spec, id, side, price, qty);
      hide Good;
      filled := Match(id, side, price, qty);
      resting := qty - filled;
      if resting > 0 {
        Rest(id, side, price, resting);
        events := events + [Added(id, side, price, resting)];
        assert old(events) + t.events + [Added(id, side, price, resting)]
          == old(events) + (t.events + [Added(id, side, price, resting)]);
      }
    }

    method Add(id: nat, side: Side, price: int, qty: nat) returns (status: AddStatus, filled: nat, resting: nat)
      requires Valid()
      modifies this, index
      ensures Valid()
      ensures var t := Apply(old(spec), Command.Add(id, side, price, qty));
        spec == t.s && t.reply == AddReply(status, filled, resting) && events == old(events) + t.events
    {
      if price <= 0 { return BadPrice, 0, 0; }
      if qty == 0 { return BadQty, 0, 0; }
      hide Good, FlatMap.Valid, Enter, Get;
      var found := index.Contains(id);
      InIndex(Levels(), pool, index.contents, free, bidCursor, askCursor, spec, id);
      if found { return DuplicateId, 0, 0; }
      filled, resting := Admit(id, side, price, qty);
      status := Ok;
    }

    /** Immediate-or-cancel: trades with what crosses, rests nothing. */
    method ExecuteIoc(id: nat, side: Side, limit: int, qty: nat) returns (filled: nat)
      requires Valid()
      modifies this, index
      ensures Valid()
      ensures var t := Apply(old(spec), Immediate(id, side, limit, qty));
        spec == t.s && t.reply == FillReply(filled) && events == old(events) + t.events
    {
      hide Good, FlatMap.Valid, Trade;
      filled := Match(id, side, limit, qty);
    }

    method Cancel(id: nat, keep: nat) returns (ok: bool)
      requires Valid()
      modifies this, index
      ensures Valid()
      ensures var t := Apply(old(spec), Command.Cancel(id, keep));
        spec == t.s && t.reply == BoolReply(ok) && events == old(events) + t.events
    {
      hide Good, FlatMap.Valid, Get, Remove, SetOpen, Wrap, Store.LevelAt, Store.Put;
      var found, idx := index.Find(id);
      InIndex(Levels(), pool, index.contents, free, bidCursor, askCursor, spec, id);
      if !found { return false; }
      SlotOf(Levels(), pool, index.contents, free, bidCursor, askCursor, spec, id);
      var o := pool[idx];
      if keep >= o.open { return false; }
      if keep == 0 {
        RemoveResting(idx, id);
        events := events + [Canceled(id, o.open, true)];
      } else {
        ShrinkGood(Levels(), pool, index.contents, free, bidCursor, askCursor, spec, id, keep);
        var canceled := o.open - keep;
        pool := pool[idx := o.(open := keep)];
        var level := Levels().LevelAt(o.side, o.price);
        StoreLevel(o.side, o.price, level.(total := Wrap(level.total - canceled)));
        spec := spec.With(o.side, SetOpen(spec.On(o.side), id, keep));
        events := events + [Canceled(id, canceled, false)];
      }
      return true;
    }

    method Replace(oldId: nat, newId: nat, price: int, qty: nat) returns (ok: bool)
      requires Valid()
      modifies this, index
      ensures Valid()
      ensures var t := Apply(old(spec), Command.Replace(oldId, newId, price, qty));
        spec == t.s && t.reply == BoolReply(ok) && events == old(events) + t.events
    {
      hide Good, FlatMap.Valid, Get, Remove, Enter;
      var found, idx := index.Find(oldId);
      InIndex(Levels(), pool, index.contents, free, bidCursor, askCursor, spec, oldId);
      if !found { return false; }
      var taken := index.Contains(newId);
      InIndex(Levels(), pool, index.contents, free, bidCursor, askCursor, spec, newId);
      if newId == oldId || taken { return false; }
      if price <= 0 || qty == 0 { return false; }
      SlotOf(Levels(), pool, index.contents, free, bidCursor, askCursor, spec, oldId);
      var side, oldOpen := pool[idx].side, pool[idx].open;
      StillAbsent(spec, oldId, newId);
      RemoveResting(idx, oldId);
      ghost var s1 := spec;
      var crossing := CrossesNow(side, price);
      if crossing {
        events := events + [Canceled(oldId, oldOpen, true)];
        var filled, resting := Admit(newId, side, price, qty);
        assert old(events) + [Canceled(oldId, oldOpen, true)] + Enter(s1, newId, side, price, qty).events
            == old(events) + ([Canceled(oldId, oldOpen, true)] + Enter(s1, newId, side, price, qty).events);
      } else {
        Rest(newId, side, price, qty);
        events := events + [Replaced(oldId, newId, side, price, qty)];
      }
      return true;
    }

    // -------------------------------------------------------------- reading the book

    /** What an incoming order with this limit could trade with right now, as a 32-bit unsigned sum. */
    method Matchable(side: Side, limit: int) returns (total: nat)
      requires Valid()
      modifies `bidCursor, `askCursor
      ensures Valid()
      ensures total == Wrap(CrossTotal(spec.On(Opposite(side)), side, limit))
    {
      hide *;
      ghost var seen;
      total, seen := LadderMatchable(side, limit);
      total := FallbackMatchable(side, limit, total, seen);
    }

    /** Sums the ladder levels of the opposite side from the best one on, up to the limit. */
    method LadderMatchable(side: Side, limit: int) returns (total: nat, ghost seen: set<int>)
      requires Valid()
      modifies `bidCursor, `askCursor
      ensures Valid() && Levels().tick > 0 && LadderDone(Levels(), spec, side, limit, seen)
      ensures total == Wrap(PartTotal(spec.On(Opposite(side)), seen))
    {
      hide Good, FlatMap.Valid, Shows, LadderBest, Store.TickIndex, LadderDone, Scanned, PartTotal, AtPrice, Wrap;
      total, seen := 0, {};
      var t := -1;
      if bandSet {
        if side.Buy? { t := LadderBestAsk(); } else { t := LadderBestBid(); }
      } else {
        NoLadder(Levels(), pool, index.contents, free, bidCursor, askCursor, spec, Opposite(side));
      }
      GoodOverall(Levels(), pool, index.contents, free, bidCursor, askCursor, spec, Opposite(side), t);
      BestInLadder(Levels(), spec, Opposite(side), t);
      ScanStarts(Levels(), spec, side, limit, t);
      NothingSummed(spec.On(Opposite(side)));
      if t < 0 { return; }
      BandIsSet(Levels(), pool, index.contents, free, bidCursor, askCursor, spec);
      while 0 <= t < |ladder|
        invariant -1 <= t <= |ladder| && (side.Buy? ==> t >= 0) && (side.Sell? ==> t < |ladder|)
        invariant Valid() && bandSet && tick > 0
        invariant Scanned(Levels(), spec, side, limit, seen, t)
        invariant total == Wrap(PartTotal(spec.On(Opposite(side)), seen))
        decreases if side.Buy? then |ladder| - t else t
      {
        GoodShows(Levels(), pool, index.contents, free, bidCursor, askCursor, spec, Opposite(side), t);
        var level, t' := ladder[t], if side.Buy? then t + 1 else t - 1;
        if level.head == NIL || pool[level.head].side != Opposite(side) {
          SumOther(Levels(), spec, side, limit, seen, t, t');
        } else {
          if !Crosses(side, limit, Levels().PriceAt(t)) { break; }
          SumLevel(Levels(), pool, index.contents, free, bidCursor, askCursor, spec, side, limit, seen, t, t');
          total := Wrap(total + level.total);
        }
        seen := seen + {Levels().PriceAt(t)};
        t := t';
      }
      ScanStops(Levels(), spec, side, limit, seen, t);
    }

    /** Adds the fallback levels of the opposite side, best first, up to the limit. */
    method FallbackMatchable(side: Side, limit: int, sum: nat, ghost seen0: set<int>) returns (total: nat)
      requires Valid() && Levels().tick > 0 && LadderDone(Levels(), spec, side, limit, seen0)
      requires sum == Wrap(PartTotal(spec.On(Opposite(side)), seen0))
      ensures total == Wrap(CrossTotal(spec.On(Opposite(side)), side, limit))
    {
      hide Good, FlatMap.Valid, Store.TickIndex, LadderDone, FallbackScanned, PartTotal, AtPrice, Wrap, BestFirst,
        StrictlyOrdered, CrossTotal;
      var fb := Levels().Fallback(Opposite(side));
      var ps := BestFirst(Opposite(side), fb.Keys);
      ghost var seen := seen0;
      total := sum;
      FallbackStarts(Levels(), spec, side, limit, seen, ps);
      BestFirstOrders(Opposite(side), fb.Keys);
      var i := 0;
      while i < |ps|
        invariant i <= |ps| && FallbackScanned(Levels(), spec, side, limit, seen, ps, i)
        invariant total == Wrap(PartTotal(spec.On(Opposite(side)), seen))
      {
        if !Crosses(side, limit, ps[i]) { break; }
        assert ps[i] in ps && ps[i] in fb.Keys;
        SumFallback(Levels(), pool, index.contents, free, bidCursor, askCursor, spec, side, limit, seen, ps, i);
        total := Wrap(total + fb[ps[i]].total);
        seen := seen + {ps[i]};
        i := i + 1;
      }
      SumEnds(Levels(), pool, index.contents, free, bidCursor, askCursor, spec, side, limit, seen, ps, i);
    }

    /** The orders of one level, by following the links. */
    method WalkLevel(level: Level, ghost q: seq<Order>) returns (orders: seq<SnapshotOrder>)
      requires Linked(pool, index.contents, q) && level == LevelOf(index.contents, q)
      ensures orders == Shown(q)
    {
      hide Linked, Shown, Total, Wrap;
      var i := level.head;
      ghost var k := 0;
      orders := [];
      WalkQueue(pool, index.contents, q, k);
      while i != NIL
        invariant k <= |q| && i == Ref(index.contents, q, k) && orders == Shown(q[..k])
        decreases |q| - k
      {
        WalkQueue(pool, index.contents, q, k);
        orders := orders + [SnapshotOrder(pool[i].id, pool[i].open)];
        i, k := pool[i].next, k + 1;
      }
      WalkQueue(pool, index.contents, q, k);
    }

    method SideSnapshot(side: Side) returns (levels: seq<SnapshotLevel>)
      requires Valid()
      ensures levels == Snapshots.Levels(spec.On(side))
    {
      hide Good, FlatMap.Valid, Store.TickIndex, Collected, AtPrice, Snapshots.Levels, LevelsAt, LevelOf, BestFirst,
        Linked;
      var m: map<int, Level> := map[];
      CollectStarts(Levels(), pool, index.contents, free, bidCursor, askCursor, spec, side);
      var t := 0;
      while t < |ladder|
        invariant t <= |ladder| && Collected(Levels(), index.contents, spec, side, m, t)
      {
        CollectTick(Levels(), pool, index.contents, free, bidCursor, askCursor, spec, side, m, t);
        var level := ladder[t];
        if level.head != NIL && pool[level.head].side == side {
          m := m[Levels().PriceAt(t) := level];
        }
        t := t + 1;
      }
      CollectEnds(Levels(), pool, index.contents, free, bidCursor, askCursor, spec, side, m);
      m := m + Levels().Fallback(side);
      var ps := BestFirst(side, m.Keys);
      ghost var l := spec.On(side);
      levels := [];
      var i := 0;
      while i < |ps|
        invariant i <= |ps| && levels == LevelsAt(l, ps[..i])
      {
        SnapshotOne(Levels(), pool, index.contents, free, bidCursor, askCursor, spec, side, ps, i);
        var orders := WalkLevel(m[ps[i]], AtPrice(l, ps[i]));
        levels := levels + [SnapshotLevel(ps[i], orders)];
        i := i + 1;
      }
    }

    method Snapshot() returns (snap: BookSnapshot)
      requires Valid()
      ensures snap == Snapshots.Snapshot(spec)
    {
      hide Good, FlatMap.Valid, Snapshots.Levels;
      var b := SideSnapshot(Buy);
      var a := SideSnapshot(Sell);
      snap := BookSnapshot(b, a);
    }
  }

  // ---------------------------------------------------------------- small facts for the methods

  lemma {:induction false} BandGood(st: Store, pool: seq<FOrder>, c: Index, free: seq<nat>, bid: int, ask: int,
      s: State, base: int, n: nat)
    requires Good(st, pool, c, free, bid, ask, s) && !st.bandSet
    ensures Good(st.(bandSet := true, base := base, ladder := seq(n, _ => EMPTY_LEVEL)), pool, c, free, -1, n, s)
  {
    hide Rep, Cursors;
    BandRep(st, pool, c, free, s, base, n);
  }

  lemma {:induction false} RestGood(st: Store, pool: seq<FOrder>, c: Index, free: seq<nat>, bid: int, ask: int,
      s: State, o: Order)
    returns (t: int)
    requires Good(st, pool, c, free, bid, ask, s) && st.bandSet
    requires o.price > 0 && o.open > 0 && s.Find(o.id).None? && !WouldCross(s, o.side, o.price)
    ensures st.tick > 0 && t == st.TickIndex(o.price) && (free != [] ==> free[|free| - 1] < |pool|)
    ensures var level, x := st.LevelAt(o.side, o.price), AllocSlot(pool, free);
      var pool1 := AllocPool(pool, free, FOrder(o.id, o.price, o.open, NIL, NIL, o.side));
      && x < |pool1| && NIL <= level.tail < |pool1| && level.tail != x
      && var st' := st.Put(o.side, o.price, LevelWith(level, x, o.open));
      && st'.tick > 0 && st'.TickIndex(o.price) == t
      && Good(st', Appended(pool1, o, x, level.tail), c[o.id := x], AllocFree(free),
              BidCursor(o.side, t, bid), AskCursor(o.side, t, ask), Book.Rest(s, o.id, o.side, o.price, o.open))
  {
    assert o.id !in c && Wf(s) && Indexed(pool, c) && FreeRep(pool, c, free) && st.tick > 0;
    hide Wf, Indexed, FreeRep, StoreRep, PoolRep, Cursors, Appended, AllocFree, AllocPool, Get, Insert, WouldCross,
      Store.LevelAt, Store.Put, Store.TickIndex, Allocated, LevelWith;
    t := st.TickIndex(o.price);
    var node := FOrder(o.id, o.price, o.open, NIL, NIL, o.side);
    AllocRep(pool, c, free, o, node);
    var x, pool1 := AllocSlot(pool, free), AllocPool(pool, free, node);
    RestRep(st, pool, c, free, s, o, x, pool1, AllocFree(free));
    RestCursors(st, bid, ask, s, o, LevelWith(st.LevelAt(o.side, o.price), x, o.open));
    TickKept(st, o.side, o.price, LevelWith(st.LevelAt(o.side, o.price), x, o.open), o.price);
  }

  lemma {:induction false} RemoveGood(st: Store, pool: seq<FOrder>, c: Index, free: seq<nat>, bid: int, ask: int,
      s: State, id: nat)
    requires Good(st, pool, c, free, bid, ask, s) && s.Find(id).Some?
    ensures var o := s.Find(id).value;
      && st.tick > 0 && id in c && Detachable(pool, c[id])
      && Good(st.Put(o.side, o.price, LevelWithout(pool, c[id], st.LevelAt(o.side, o.price))),
              Unlinked(pool, c[id]), c - {id}, free + [c[id]], bid, ask, s.With(o.side, Remove(s.On(o.side), id)))
  {
    RemoveRep(st, pool, c, free, s, id);
    hide Cursors, Unlinked, Get, Remove, Store.LevelAt, Store.Put, LevelWithout;
    var o := s.Find(id).value;
    RemoveCursors(st, bid, ask, s, id, LevelWithout(pool, c[id], st.LevelAt(o.side, o.price)));
    TickKept(st, o.side, o.price, LevelWithout(pool, c[id], st.LevelAt(o.side, o.price)), o.price);
  }

  lemma {:induction false} RestCursors(st: Store, bid: int, ask: int, s: State, o: Order, level: Level)
    requires Wf(s) && st.tick > 0 && Cursors(st, bid, ask, s)
    requires o.price > 0 && o.open > 0 && s.Find(o.id).None? && !WouldCross(s, o.side, o.price)
    ensures var t, st' := st.TickIndex(o.price), st.Put(o.side, o.price, level);
      && st'.tick > 0
      && Cursors(st', BidCursor(o.side, t, bid), AskCursor(o.side, t, ask), Book.Rest(s, o.id, o.side, o.price, o.open))
  {
    var st' := st.Put(o.side, o.price, level);
    forall q ensures st'.tick > 0 && st'.TickIndex(q) == st.TickIndex(q) { TickKept(st, o.side, o.price, level, q); }
    QueueJoined(s, o);
    hide Get, AtPrice, Wf, OnlyAt, Cursors, Store.Put, Store.TickIndex, Insert, WouldCross;
    CursorsRest(st, st', bid, ask, s, o);
  }

  /** The slot that the index gives for an id holds that order. */
  lemma {:induction false} SlotOf(st: Store, pool: seq<FOrder>, c: Index, free: seq<nat>, bid: int, ask: int, s: State,
      id: nat)
    requires Good(st, pool, c, free, bid, ask, s) && id in c
    ensures st.tick > 0 && s.Find(id).Some? && 0 <= c[id] < |pool| && Wf(s)
    ensures var o := s.Find(id).value; var n := pool[c[id]];
      n.id == id == o.id && n.side == o.side && n.price == o.price && n.open == o.open && o.open > 0
  {
    FindSide(s, id);
    hide Wf, FreeRep, StoreRep;
    PoolRemove(pool, c, free, s, id);
  }

  lemma {:induction false} RemoveCursors(st: Store, bid: int, ask: int, s: State, id: nat, level: Level)
    requires Wf(s) && st.tick > 0 && Cursors(st, bid, ask, s) && s.Find(id).Some?
    ensures var o := s.Find(id).value; var st' := st.Put(o.side, o.price, level);
      st'.tick > 0 && Cursors(st', bid, ask, s.With(o.side, Remove(s.On(o.side), id)))
  {
    var o := s.Find(id).value;
    var st', s' := st.Put(o.side, o.price, level), s.With(o.side, Remove(s.On(o.side), id));
    forall q ensures st'.tick > 0 && st'.TickIndex(q) == st.TickIndex(q) { TickKept(st, o.side, o.price, level, q); }
    QueueWithout(s, id);
    hide Get, AtPrice, Wf, Cursors, Store.Put, Store.TickIndex, Remove;
    assert AtPrice(s.On(o.side), o.price) != [] by { NotEmpty(AtPrice(s.On(o.side), o.price), id); }
    forall p ensures (AtPrice(s'.bids, p) != [] ==> AtPrice(s.bids, p) != [])
      && (AtPrice(s'.asks, p) != [] ==> AtPrice(s.asks, p) != []) {
      assert p != o.price ==> AtPrice(s'.On(o.side), p) == AtPrice(s.On(o.side), p);
    }
    CursorsKept(st, st', bid, ask, s, s');
  }

  lemma {:induction false} NotEmpty(q: seq<Order>, id: nat)
    requires Get(q, id).Some?
    ensures q != []
  {
  }

  lemma {:induction false} CursorRange(st: Store, pool: seq<FOrder>, c: Index, free: seq<nat>, bid: int, ask: int,
      s: State)
    requires Good(st, pool, c, free, bid, ask, s)
    ensures st.tick > 0 && -1 <= bid && ask <= |st.ladder|
  {
  }

  lemma {:induction false} GoodShows(st: Store, pool: seq<FOrder>, c: Index, free: seq<nat>, bid: int, ask: int,
      s: State, side: Side, t: int)
    requires Good(st, pool, c, free, bid, ask, s) && 0 <= t < |st.ladder|
    ensures st.ladder[t].head != NIL ==> 0 <= st.ladder[t].head < |pool|
    ensures Shows(st, s, side, t) <==> st.ladder[t].head != NIL && pool[st.ladder[t].head].side == side
  {
    hide Rep, Shows, Cursors;
    LadderShows(st, pool, c, free, s, side, t);
  }

  /** A finished scan has found the best ladder level, and may leave the cursor there. */
  lemma {:induction false} GoodBest(st: Store, pool: seq<FOrder>, c: Index, free: seq<nat>, bid: int, ask: int,
      s: State, side: Side, t: int)
    requires Good(st, pool, c, free, bid, ask, s) && st.bandSet && -1 <= t <= |st.ladder|
    requires side.Buy? ==> t < |st.ladder| && forall u | t < u < |st.ladder| && u <= bid :: !Shows(st, s, side, u)
    requires side.Sell? ==> t >= 0 && forall u | 0 <= u < t && ask <= u :: !Shows(st, s, side, u)
    requires 0 <= t < |st.ladder| ==> Shows(st, s, side, t)
    ensures LadderBest(st, s, side, if t < |st.ladder| then t else -1)
    ensures Good(st, pool, c, free, if side.Buy? then t else bid, if side.Buy? then ask else t, s)
  {
    assert st.tick > 0;
    hide Rep, Shows, Cursors, LadderBest;
    ScanFinds(st, bid, ask, s, side, t);
    BestMovesCursor(st, bid, ask, s, side, if t < |st.ladder| then t else -1);
    if side.Sell? && t < |st.ladder| { assert t >= 0; }
  }

  lemma {:induction false} NoLadder(st: Store, pool: seq<FOrder>, c: Index, free: seq<nat>, bid: int, ask: int,
      s: State, side: Side)
    requires Good(st, pool, c, free, bid, ask, s) && !st.bandSet
    ensures LadderBest(st, s, side, -1)
  {
  }

  lemma {:induction false} GoodOverall(st: Store, pool: seq<FOrder>, c: Index, free: seq<nat>, bid: int, ask: int,
      s: State, side: Side, t: int)
    requires Good(st, pool, c, free, bid, ask, s) && LadderBest(st, s, side, t)
    ensures st.tick > 0 && -1 <= t
    ensures var fb := st.Fallback(side).Keys;
      && (s.On(side) == [] <==> t < 0 && fb == {})
      && (s.On(side) != [] ==>
            var best := s.On(side)[0].price;
            if fb != {} && (t < 0 || Better(side, BestOf(side, fb), st.PriceAt(t)))
            then best == BestOf(side, fb) && st.TickIndex(best) == -1
            else t >= 0 && best == st.PriceAt(t) && st.TickIndex(best) == t)
  {
    assert st.tick > 0;
    BestOverall(st, pool, c, free, s, side, t);
    hide Rep, Cursors, Store.TickIndex;
  }

  /** The head of the level is the first order of the queue. */
  lemma {:induction false} JobHead(j: Job, s: State, pool: seq<FOrder>, c: Index, free: seq<nat>, level: Level,
      filled: nat, done: seq<Event>)
    requires j.At(s, pool, c, free, level, filled, done)
    ensures level.head == NIL <==> j.Queue(s) == []
    ensures level.head != NIL ==>
      0 <= level.head < |pool| && pool[level.head].id == j.Queue(s)[0].id && pool[level.head].open == j.Queue(s)[0].open
  {
    QueueLinked(pool, c, s, Opposite(j.side), j.p);
    HeadOf(pool, c, j.Queue(s));
    hide AtPrice, Wf, Linked, PoolRep, FreeRep, Frame, OnlyAt, Remaining, LevelOf;
  }

  lemma {:induction false} GoodStart(st: Store, free: seq<nat>, bid: int, ask: int, j: Job)
    requires Good(st, j.pool0, j.c0, free, bid, ask, j.s0)
    requires WouldCross(j.s0, j.side, j.limit) && j.p == j.s0.On(Opposite(j.side))[0].price
    ensures st.tick > 0 && j.Started() && j.Queue(j.s0) != []
    ensures j.At(j.s0, j.pool0, j.c0, free, st.LevelAt(Opposite(j.side), j.p), 0, [])
  {
    OneSided(j.s0, j.p);
    StartJob(j, free);
    LevelFound(st, j.c0, j.s0, Opposite(j.side), j.p);
    hide Cursors, Job.At, PoolRep, FreeRep, Store.LevelAt;
  }

  lemma {:induction false} GoodEnd(st: Store, free0: seq<nat>, bid: int, ask: int, j: Job, s: State, pool: seq<FOrder>,
      c: Index, free: seq<nat>, level: Level, filled: nat, done: seq<Event>)
    requires Good(st, j.pool0, j.c0, free0, bid, ask, j.s0) && j.Started()
      && j.At(s, pool, c, free, level, filled, done)
    ensures st.tick > 0 && Good(st.Put(Opposite(j.side), j.p, level), pool, c, free, bid, ask, s)
    ensures Remaining(Trade(j.s0, j.id, j.side, j.limit, j.want), filled, done, s, j.id, j.side, j.limit,
      j.want - filled)
  {
    var opp := Opposite(j.side);
    OneSided(j.s0, j.p);
    NotFirst(j.s0, opp, j.p);
    assert st.tick > 0 && (!st.bandSet ==> j.s0.bids == [] && j.s0.asks == []);
    hide AtPrice, Wf, Linked, PoolRep, FreeRep, Frame, Remaining, LevelOf, StoreRep, Store.Put, Store.TickIndex, Trade,
      Get;
    StoreStep(st, j.pool0, j.c0, j.s0, pool, c, s, opp, j.p);
    var st' := st.Put(opp, j.p, level);
    forall q ensures st'.tick > 0 && st'.TickIndex(q) == st.TickIndex(q) && st'.bandSet == st.bandSet
      && |st'.ladder| == |st.ladder| {
      TickKept(st, opp, j.p, level, q);
    }
    forall p ensures (AtPrice(s.bids, p) != [] ==> AtPrice(j.s0.bids, p) != [])
      && (AtPrice(s.asks, p) != [] ==> AtPrice(j.s0.asks, p) != []) {
      assert p != j.p ==> AtPrice(s.On(opp), p) == AtPrice(j.s0.On(opp), p);
    }
    CursorsKept(st, st', bid, ask, j.s0, s);
  }

  lemma {:induction false} NotFirst(s: State, side: Side, p: int)
    requires s.On(side) != [] && s.On(side)[0].price == p
    ensures AtPrice(s.On(side), p) != []
  {
  }

  lemma {:induction false} InIndex(st: Store, pool: seq<FOrder>, c: Index, free: seq<nat>, bid: int, ask: int, s: State,
      id: nat)
    requires Good(st, pool, c, free, bid, ask, s)
    ensures st.tick > 0 && (id in c <==> s.Find(id).Some?)
  {
  }

  lemma {:induction false} StillAbsent(s: State, oldId: nat, newId: nat)
    requires Wf(s) && s.Find(oldId).Some? && s.Find(newId).None?
    ensures var side := s.Find(oldId).value.side; s.With(side, Remove(s.On(side), oldId)).Find(newId).None?
  {
    var side := s.Find(oldId).value.side;
    GetAfterRemove(s.On(side), oldId, newId);
  }

  lemma {:induction false} ShrinkCursors(st: Store, bid: int, ask: int, s: State, id: nat, open: nat, level: Level)
    requires Wf(s) && st.tick > 0 && Cursors(st, bid, ask, s) && s.Find(id).Some?
    ensures var o := s.Find(id).value; var st' := st.Put(o.side, o.price, level);
      && st'.tick > 0 && |st'.ladder| == |st.ladder|
      && Cursors(st', bid, ask, s.With(o.side, SetOpen(s.On(o.side), id, open)))
  {
    var o := s.Find(id).value;
    var st', s' := st.Put(o.side, o.price, level), s.With(o.side, SetOpen(s.On(o.side), id, open));
    forall q ensures st'.tick > 0 && st'.TickIndex(q) == st.TickIndex(q) && |st'.ladder| == |st.ladder| {
      TickKept(st, o.side, o.price, level, q);
    }
    QueueShrunk(s, id, open);
    hide Get, AtPrice, Wf, Cursors, Store.Put, Store.TickIndex, SetOpen;
    NotEmpty(AtPrice(s.On(o.side), o.price), id);
    forall p ensures (AtPrice(s'.bids, p) != [] ==> AtPrice(s.bids, p) != [])
      && (AtPrice(s'.asks, p) != [] ==> AtPrice(s.asks, p) != []) {
      assert p != o.price ==> AtPrice(s'.On(o.side), p) == AtPrice(s.On(o.side), p);
    }
    CursorsKept(st, st', bid, ask, s, s');
  }

  lemma {:induction false} ShrinkGood(st: Store, pool: seq<FOrder>, c: Index, free: seq<nat>, bid: int, ask: int,
      s: State, id: nat, open: nat)
    requires Good(st, pool, c, free, bid, ask, s) && s.Find(id).Some? && 0 < open <= s.Find(id).value.open
    ensures var o := s.Find(id).value;
      && st.tick > 0 && id in c && 0 <= c[id] < |pool|
      && var level := st.LevelAt(o.side, o.price);
      && Good(st.Put(o.side, o.price, level.(total := Wrap(level.total - (o.open - open)))),
              pool[c[id] := pool[c[id]].(open := open)], c, free, bid, ask,
                s.With(o.side, SetOpen(s.On(o.side), id, open)))
  {
    var o := s.Find(id).value;
    ShrinkRep(st, pool, c, free, s, id, open);
    assert st.tick > 0 && Wf(s);
    hide Get, Rep, Store.Put, Store.LevelAt, SetOpen, Wrap, Cursors;
    var l := st.LevelAt(o.side, o.price);
    ShrinkCursors(st, bid, ask, s, id, open, l.(total := Wrap(l.total - (o.open - open))));
  }

  // ---------------------------------------------------------------- small facts for the readers

  lemma {:induction false} BestInLadder(st: Store, s: State, side: Side, t: int)
    requires LadderBest(st, s, side, t)
    ensures -1 <= t < |st.ladder|
  {
  }

  lemma {:induction false} BandIsSet(st: Store, pool: seq<FOrder>, c: Index, free: seq<nat>, bid: int, ask: int,
      s: State)
    requires Good(st, pool, c, free, bid, ask, s) && st.ladder != []
    ensures st.bandSet
  {
  }

  lemma {:induction false} NothingSummed(l: seq<Order>)
    ensures Wrap(PartTotal(l, {})) == 0
  {
    PartNone(l);
  }

  lemma {:induction false} SumOther(st: Store, s: State, side: Side, limit: int, seen: set<int>, t: int, t': int)
    requires st.tick > 0 && st.bandSet && Scanned(st, s, side, limit, seen, t) && 0 <= t < |st.ladder|
    requires t' == if side.Buy? then t + 1 else t - 1
    requires !Shows(st, s, Opposite(side), t)
    ensures Scanned(st, s, side, limit, seen + {st.PriceAt(t)}, t')
    ensures PartTotal(s.On(Opposite(side)), seen + {st.PriceAt(t)}) == PartTotal(s.On(Opposite(side)), seen)
  {
    ScanOn(st, s, side, limit, seen, t, t');
    PartAdd(s.On(Opposite(side)), seen, st.PriceAt(t));
    hide PartTotal, AtPrice, Scanned;
    assert AtPrice(s.On(Opposite(side)), st.PriceAt(t)) == [];
  }

  lemma {:induction false} SumLevel(st: Store, pool: seq<FOrder>, c: Index, free: seq<nat>, bid: int, ask: int,
      s: State, side: Side, limit: int, seen: set<int>, t: int, t': int)
    requires Good(st, pool, c, free, bid, ask, s)
    requires st.tick > 0 && st.bandSet && Scanned(st, s, side, limit, seen, t) && 0 <= t < |st.ladder|
    requires t' == if side.Buy? then t + 1 else t - 1
    requires Shows(st, s, Opposite(side), t) && Crosses(side, limit, st.PriceAt(t))
    ensures Scanned(st, s, side, limit, seen + {st.PriceAt(t)}, t')
    ensures Wrap(PartTotal(s.On(Opposite(side)), seen + {st.PriceAt(t)}))
         == Wrap(Wrap(PartTotal(s.On(Opposite(side)), seen)) + st.ladder[t].total)
  {
    hide Rep, Cursors, Store.TickIndex, Store.PriceAt, AtPrice, PartTotal, Scanned, Total;
    ScanOn(st, s, side, limit, seen, t, t');
    LadderShows(st, pool, c, free, s, Opposite(side), t);
    AddPart(s.On(Opposite(side)), seen, st.PriceAt(t));
  }

  lemma {:induction false} AddPart(l: seq<Order>, seen: set<int>, p: int)
    requires p !in seen
    ensures Wrap(PartTotal(l, seen + {p})) == Wrap(Wrap(PartTotal(l, seen)) + Wrap(Total(AtPrice(l, p))))
  {
    PartAdd(l, seen, p);
    var a, b := PartTotal(l, seen), Total(AtPrice(l, p));
    WrapMinus(a, Wrap(b));
    WrapMinus(b, a);
  }

  lemma {:induction false} FallbackStarts(st: Store, s: State, side: Side, limit: int, seen: set<int>, ps: seq<int>)
    requires st.tick > 0 && LadderDone(st, s, side, limit, seen)
    ensures FallbackScanned(st, s, side, limit, seen, ps, 0)
  {
    hide AtPrice, Store.TickIndex;
  }

  lemma {:induction false} SumFallback(st: Store, pool: seq<FOrder>, c: Index, free: seq<nat>, bid: int, ask: int,
      s: State, side: Side, limit: int, seen: set<int>, ps: seq<int>, i: nat)
    requires Good(st, pool, c, free, bid, ask, s) && st.tick > 0
    requires i < |ps| && FallbackScanned(st, s, side, limit, seen, ps, i) && Crosses(side, limit, ps[i])
    requires StrictlyOrdered(Opposite(side), ps) && ps[i] in st.Fallback(Opposite(side))
    ensures FallbackScanned(st, s, side, limit, seen + {ps[i]}, ps, i + 1)
    ensures Wrap(PartTotal(s.On(Opposite(side)), seen + {ps[i]}))
         == Wrap(Wrap(PartTotal(s.On(Opposite(side)), seen)) + st.Fallback(Opposite(side))[ps[i]].total)
  {
    assert PriceRep(st, c, s, ps[i]);
    hide Cursors, Store.TickIndex, AtPrice, PartTotal, FallbackScanned, Total, PoolRep, FreeRep, StoreRep,
      StrictlyOrdered;
    NoRepeats(Opposite(side), ps, i);
    FallbackOn(st, s, side, limit, seen, ps, i);
    AddPart(s.On(Opposite(side)), seen, ps[i]);
  }

  lemma {:induction false} SumEnds(st: Store, pool: seq<FOrder>, c: Index, free: seq<nat>, bid: int, ask: int, s: State,
      side: Side, limit: int, seen: set<int>, ps: seq<int>, i: nat)
    requires Good(st, pool, c, free, bid, ask, s) && st.tick > 0
    requires i <= |ps| && FallbackScanned(st, s, side, limit, seen, ps, i)
    requires StrictlyOrdered(Opposite(side), ps) && forall p :: p in ps <==> p in st.Fallback(Opposite(side)).Keys
    requires i < |ps| ==> !Crosses(side, limit, ps[i])
    ensures PartTotal(s.On(Opposite(side)), seen) == CrossTotal(s.On(Opposite(side)), side, limit)
  {
    hide Cursors, FallbackScanned, PoolRep, FreeRep, StoreRep, StrictlyOrdered, PartTotal, CrossTotal;
    FallbackStops(st, c, s, side, limit, seen, ps, i);
  }

  lemma {:induction false} CollectStarts(st: Store, pool: seq<FOrder>, c: Index, free: seq<nat>, bid: int, ask: int,
      s: State, side: Side)
    requires Good(st, pool, c, free, bid, ask, s)
    ensures st.tick > 0 && Collected(st, c, s, side, map[], 0)
  {
    assert st.tick > 0;
    hide AtPrice, Rep, Cursors, LevelOf, Store.TickIndex;
  }

  lemma {:induction false} CollectTick(st: Store, pool: seq<FOrder>, c: Index, free: seq<nat>, bid: int, ask: int,
      s: State, side: Side, m: map<int, Level>, t: int)
    requires Good(st, pool, c, free, bid, ask, s) && st.tick > 0 && 0 <= t < |st.ladder|
      && Collected(st, c, s, side, m, t)
    ensures st.ladder[t].head != NIL ==> 0 <= st.ladder[t].head < |pool|
    ensures Collected(st, c, s, side, if st.ladder[t].head != NIL
      && pool[st.ladder[t].head].side == side then m[st.PriceAt(t) := st.ladder[t]] else m, t + 1)
  {
    hide Cursors, Collected, Wf, StoreRep, PoolRep, FreeRep, Store.PriceAt;
    CollectOne(st, pool, c, free, s, side, m, t);
  }

  lemma {:induction false} CollectEnds(st: Store, pool: seq<FOrder>, c: Index, free: seq<nat>, bid: int, ask: int,
      s: State, side: Side, m: map<int, Level>)
    requires Good(st, pool, c, free, bid, ask, s) && st.tick > 0 && Collected(st, c, s, side, m, |st.ladder|)
    ensures var ps := BestFirst(side, (m + st.Fallback(side)).Keys);
      && Snapshots.Levels(s.On(side)) == LevelsAt(s.On(side), ps) && LevelsAt(s.On(side), ps[..0]) == []
        && ps[..|ps|] == ps
      && forall i | 0 <= i < |ps| ::
          && ps[i] in m + st.Fallback(side)
          && (m + st.Fallback(side))[ps[i]] == LevelOf(c, AtPrice(s.On(side), ps[i]))
  {
    hide Cursors, Collected, Wf, PoolRep, FreeRep, AllLevels, LevelsAt, Snapshots.Levels, BestFirst, LevelOf, AtPrice,
      StoreRep;
    CollectFallback(st, c, s, side, m);
    SnapshotOfLevels(c, s, side, m + st.Fallback(side));
  }

  lemma {:induction false} SnapshotOne(st: Store, pool: seq<FOrder>, c: Index, free: seq<nat>, bid: int, ask: int,
      s: State, side: Side, ps: seq<int>, i: nat)
    requires Good(st, pool, c, free, bid, ask, s) && i < |ps|
    ensures Linked(pool, c, AtPrice(s.On(side), ps[i]))
    ensures LevelsAt(s.On(side), ps[..i + 1])
      == LevelsAt(s.On(side), ps[..i]) + [SnapshotLevel(ps[i], Shown(AtPrice(s.On(side), ps[i])))]
  {
    QueueLinked(pool, c, s, side, ps[i]);
    assert ps[..i + 1] == ps[..i] + [ps[i]];
    LevelsAtAppend(s.On(side), ps[..i], ps[i]);
    hide LevelsAt, AtPrice, Linked, Good;
  }
}
