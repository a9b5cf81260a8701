/**
 The reference book: a map of price levels per side, a queue and an aggregate per level, and an index by id.

 `spec` is the book as module `Book` sees it; `Valid` ties the maps to it, and every method is proved to do
 to `spec`, to the listener's event log and to its caller exactly what `Book.Apply` does.
 */
module ReferenceBook {
  import opened Book
  import opened BookLemmas
  import opened BookEvents
  import opened Matching
  import opened Snapshots

  datatype Level = Level(total: nat, orders: seq<Order>)
  datatype Handle = Handle(side: Side, price: int)

  ghost function LevelOf(l: seq<Order>, p: int): Level {
    Level(Wrap(Total(AtPrice(l, p))), AtPrice(l, p))
  }

  /** The level map of one side holds exactly the prices in use, each with its queue and wrapped aggregate. */
  ghost predicate SideRep(m: map<int, Level>, l: seq<Order>) {
    forall p :: LevelRep(m, l, p)
  }

  ghost predicate LevelRep(m: map<int, Level>, l: seq<Order>, p: int) {
    (p in m <==> AtPrice(l, p) != []) && (p in m ==> m[p] == LevelOf(l, p))
  }

  ghost predicate IndexRep(index: map<nat, Handle>, s: State) {
    forall id :: && (id in index <==> s.Find(id).Some?)
                 && (id in index ==> index[id] == Handle(s.Find(id).value.side, s.Find(id).value.price))
  }

  lemma {:induction false} BestKey(m: map<int, Level>, l: seq<Order>, side: Side)
    requires SideRep(m, l) && Sorted(l, side)
    ensures m.Keys == {} <==> l == []
    ensures l != [] ==> BestOf(side, m.Keys) == l[0].price
  {
    if l != [] {
      assert LevelRep(m, l, l[0].price);
      var p := BestOf(side, m.Keys);
      assert LevelRep(m, l, p);
      if Better(side, p, l[0].price) { NothingBeyondBest(l, side, p); }
    } else {
      assert forall p :: LevelRep(m, l, p) ==> p !in m.Keys;
      assert forall p :: p !in m.Keys;
    }
  }

  lemma {:induction false} IndexAfterFill(index: map<nat, Handle>, s: State, e: Event)
    requires Wf(s) && e.Executed? && Legal(s, e) && IndexRep(index, s)
    ensures var o := s.On(Opposite(e.aggressorSide))[0];
      IndexRep(if e.qty == o.open then index - {o.id} else index, After(s, e))
  {
    var opp := s.On(Opposite(e.aggressorSide));
    forall id ensures After(s, e).Find(id) == if id != opp[0].id then s.Find(id)
                                              else if e.qty == opp[0].open then None
                                              else Some(opp[0].(open := opp[0].open - e.qty))
    {
      GetAfterRemove(opp, opp[0].id, id);
      GetAfterSetOpen(opp, opp[0].id, opp[0].open - e.qty, id);
    }
  }

  /** An incoming order at work on the best level of the opposite side: where it started and what it is to do. */
  datatype Job = Job(id: nat, side: Side, limit: int, want: nat, s0: State, p: int) {
    ghost predicate Started() {
      var opp := s0.On(Opposite(side));
      Sorted(opp, Opposite(side)) && opp != [] && opp[0].price == p && Crosses(side, limit, p)
    }

    /** `filled` shares were traded by the events `done`, all of them at this level, which now is `level`. */
    ghost predicate At(s: State, index: map<nat, Handle>, level: Level, filled: nat, done: seq<Event>) {
      && Wf(s) && IndexRep(index, s) && filled <= want
      && s.On(side) == s0.On(side)
      && (forall q | q != p :: AtPrice(s.On(Opposite(side)), q) == AtPrice(s0.On(Opposite(side)), q))
      && level == LevelOf(s.On(Opposite(side)), p)
      && Remaining(Trade(s0, id, side, limit, want), filled, done, s, id, side, limit, want - filled)
    }
  }

  /** One turn of the inner matching loop. */
  lemma {:induction false} ConsumeOne(j: Job, s: State, index: map<nat, Handle>, level: Level, filled: nat,
      done: seq<Event>)
    returns (s': State)
    requires j.Started() && j.At(s, index, level, filled, done) && filled < j.want && level.orders != []
    ensures s'.nextMatch == s.nextMatch + 1
    ensures var o := level.orders[0]; var exec := if j.want - filled < o.open then j.want - filled else o.open;
      && exec > 0
      && var done' := done + [Executed(o.id, j.id, j.side, o.price, exec, s.nextMatch)];
      && (exec == o.open ==>
            j.At(s', index - {o.id}, Level(Wrap(level.total - exec), level.orders[1..]), filled + exec, done'))
      && (exec < o.open ==>
            j.At(s', index, Level(Wrap(level.total - exec), [o.(open := o.open - exec)] + level.orders[1..]), filled
              + exec, done'))
  {
    hide Trade, Match, Sorted, UniqueIds, Apart, Wf, Legal, Total, AtPrice, IndexRep, Remaining, Wrap;
    var opp0, want := j.s0.On(Opposite(j.side)), j.want - filled;
    ConsumeLegal(s, opp0, j.p, j.id, j.side, want);
    var e := NextFill(s, j.id, j.side, want);
    s' := After(s, e);
    ConsumeQueue(s, e, opp0);
    RemainingStep(Trade(j.s0, j.id, j.side, j.limit, j.want), filled, done, s, j.id, j.side, j.limit, want);
    IndexAfterFill(index, s, e);
    WrapMinus(Total(AtPrice(s.On(Opposite(j.side)), j.p)), e.qty);
  }

  lemma {:induction false} SideRepAfterLevel(m: map<int, Level>, l: seq<Order>, l': seq<Order>, p: int)
    requires SideRep(m, l) && forall q | q != p :: AtPrice(l', q) == AtPrice(l, q)
    ensures SideRep(if AtPrice(l', p) == [] then m - {p} else m[p := LevelOf(l', p)], l')
  {
    hide AtPrice, Total, Wrap;
    var m' := if AtPrice(l', p) == [] then m - {p} else m[p := LevelOf(l', p)];
    forall q ensures LevelRep(m', l', q) { assert LevelRep(m, l, q); }
  }

  /** What joining the book does to the level map of the side. */
  lemma {:induction false} SideRepAfterRest(m: map<int, Level>, l: seq<Order>, o: Order)
    requires SideRep(m, l) && Sorted(l, o.side)
    ensures var level := if o.price in m then m[o.price] else Level(0, []);
      SideRep(m[o.price := Level(Wrap(level.total + o.open), level.orders + [o])], Insert(l, o))
  {
    hide Sorted, Insert;
    forall q ensures AtPrice(Insert(l, o), q) == if q == o.price then AtPrice(l, q) + [o] else AtPrice(l, q) {
      AtPriceAfterInsert(l, o, q);
    }
    assert LevelRep(m, l, o.price);
    TotalAppend(AtPrice(l, o.price), o);
    WrapMinus(Total(AtPrice(l, o.price)), o.open);
    SideRepAfterLevel(m, l, Insert(l, o), o.price);
  }

  lemma {:induction false} IndexAfterRest(index: map<nat, Handle>, s: State, id: nat, side: Side, price: int, qty: nat)
    requires IndexRep(index, s) && s.Find(id).None?
    ensures IndexRep(index[id := Handle(side, price)], Rest(s, id, side, price, qty))
  {
    hide Get, Insert;
    var o := Order(id, side, price, qty);
    forall x ensures Get(Insert(s.On(side), o), x) == if x == id then Some(o) else Get(s.On(side), x) {
      GetAfterInsert(s.On(side), o, x);
    }
  }

  /** An indexed order is in the queue of its level. */
  lemma {:induction false} InItsLevel(m: map<int, Level>, s: State, id: nat)
    requires Wf(s) && s.Find(id).Some? && SideRep(m, s.On(s.Find(id).value.side))
    ensures var o := s.Find(id).value;
      && o.price in m && m[o.price] == LevelOf(s.On(o.side), o.price) && Get(m[o.price].orders, id) == Some(o)
  {
    FindSide(s, id);
    var o := s.Find(id).value;
    GetAtPrice(s.On(o.side), id, o.price);
    assert LevelRep(m, s.On(o.side), o.price);
  }

  lemma {:induction false} SideRepAfterRemove(m: map<int, Level>, s: State, id: nat)
    requires Wf(s) && s.Find(id).Some? && SideRep(m, s.On(s.Find(id).value.side))
    ensures var o := s.Find(id).value; var l := s.On(o.side);
      && o.price in m
      && var orders := Remove(m[o.price].orders, id);
      && SideRep(if orders == [] then m - {o.price} else m[o.price := Level(Wrap(m[o.price].total - o.open), orders)],
                 Remove(l, id))
  {
    InItsLevel(m, s, id);
    FindSide(s, id);
    hide Get, Remove, AtPrice, Sorted;
    var o := s.Find(id).value;
    var l := s.On(o.side);
    forall q ensures AtPrice(Remove(l, id), q) == Remove(AtPrice(l, q), id) { AtPriceAfterRemove(l, id, q); }
    forall q | q != o.price ensures AtPrice(Remove(l, id), q) == AtPrice(l, q) {
      GetAtPrice(l, id, q);
      AbsentAtPrice(AtPrice(l, q), id, q, 0);
    }
    TotalAfterRemove(AtPrice(l, o.price), id);
    WrapMinus(Total(AtPrice(l, o.price)), o.open);
    SideRepAfterLevel(m, l, Remove(l, id), o.price);
  }

  lemma {:induction false} SideRepAfterSetOpen(m: map<int, Level>, s: State, id: nat, keep: nat)
    requires Wf(s) && s.Find(id).Some? && SideRep(m, s.On(s.Find(id).value.side)) && keep <= s.Find(id).value.open
    ensures var o := s.Find(id).value; var l := s.On(o.side);
      && o.price in m
      && SideRep(m[o.price := Level(Wrap(m[o.price].total - (o.open - keep)), SetOpen(m[o.price].orders, id, keep))],
                 SetOpen(l, id, keep))
  {
    InItsLevel(m, s, id);
    FindSide(s, id);
    var o := s.Find(id).value;
    var l := s.On(o.side);
    hide Get, AtPrice, Sorted;
    forall q ensures AtPrice(SetOpen(l, id, keep), q) == SetOpen(AtPrice(l, q), id, keep) {
      AtPriceAfterSetOpen(l, id, keep, q);
    }
    forall q | q != o.price ensures AtPrice(SetOpen(l, id, keep), q) == AtPrice(l, q) {
      GetAtPrice(l, id, q);
      AbsentAtPrice(AtPrice(l, q), id, q, keep);
    }
    TotalAfterSetOpen(AtPrice(l, o.price), id, keep);
    WrapMinus(Total(AtPrice(l, o.price)), o.open - keep);
    SideRepAfterLevel(m, l, SetOpen(l, id, keep), o.price);
  }

  lemma {:induction false} IndexAfterRemove(index: map<nat, Handle>, s: State, id: nat, keep: nat)
    requires Wf(s) && s.Find(id).Some? && IndexRep(index, s)
    ensures var side := s.Find(id).value.side;
      && IndexRep(index - {id}, s.With(side, Remove(s.On(side), id)))
      && IndexRep(index, s.With(side, SetOpen(s.On(side), id, keep)))
  {
    FindSide(s, id);
    hide Get, Remove, SetOpen, Sorted;
    var side := s.Find(id).value.side;
    var s1, s2 := s.With(side, Remove(s.On(side), id)), s.With(side, SetOpen(s.On(side), id, keep));
    forall x ensures s1.Find(x) == if x == id then None else s.Find(x) { GetAfterRemove(s.On(side), id, x); }
    forall x ensures s2.Find(x) == if x == id then Some(s.Find(x).value.(open := keep)) else s.Find(x) {
      GetAfterSetOpen(s.On(side), id, keep, x);
    }
  }

  class OrderBook {
    var bids: map<int, Level>
    var asks: map<int, Level>
    var index: map<nat, Handle>
    var nextMatchId: nat
    var events: seq<Event>
    ghost var spec: State

    ghost predicate Valid()
      reads this
    {
      && Wf(spec)
      && SideRep(bids, spec.bids)
      && SideRep(asks, spec.asks)
      && IndexRep(index, spec)
      && nextMatchId == spec.nextMatch
    }

    constructor ()
      ensures Valid() && spec == EMPTY && events == []
    {
      bids, asks, index, nextMatchId, events, spec := map[], map[], map[], 1, [], EMPTY;
    }

    /** The inner loop of matching: consumes the queue of the best price from its front. */
    method ConsumeLevel(level: Level, id: nat, side: Side, want: nat, ghost j: Job)
      returns (level': Level, filled: nat, ghost done: seq<Event>)
      requires j.Started() && j.id == id && j.side == side && j.want == want && want > 0 && level.orders != []
      requires nextMatchId == spec.nextMatch
      requires j.At(spec, index, level, 0, [])
      modifies `index, `nextMatchId, `events, `spec
      ensures nextMatchId == spec.nextMatch
      ensures j.At(spec, index, level', filled, done) && 0 < filled <= want && events == old(events) + done
      ensures filled == want || level'.orders == []
    {
      hide *;
      level', filled, done := level, 0, [];
      while filled < want && level'.orders != []
        invariant filled <= want
        invariant nextMatchId == spec.nextMatch
        invariant j.At(spec, index, level', filled, done) && events == old(events) + done
        invariant filled == 0 ==> level'.orders != []
      {
        var resting := level'.orders[0];
        var exec := if want - filled < resting.open then want - filled else resting.open;
        ghost var s' := ConsumeOne(j, spec, index, level', filled, done);
        var e := Executed(resting.id, id, side, resting.price, exec, nextMatchId);
        events, done, spec := events + [e], done + [e], s';
        nextMatchId := nextMatchId + 1;
        filled := filled + exec;
        if exec == resting.open {
          index := index - {resting.id};
          level' := Level(Wrap(level'.total - exec), level'.orders[1..]);
        } else {
          level' := Level(Wrap(level'.total - exec), [resting.(open := resting.open - exec)] + level'.orders[1..]);
        }
      }
    }

    /** The outer loop of matching: best level after best level while the limit is crossed. */
    method Match(id: nat, side: Side, limit: int, qty: nat) returns (filled: nat)
      requires Valid()
      modifies this
      ensures Valid()
      ensures var t := Trade(old(spec), id, side, limit, qty);
        spec == t.s && filled == t.reply.filled && events == old(events) + t.events
    {
      hide Trade, Book.Match, AtPrice, Get, Sorted, UniqueIds, Apart, Uncrossed, IndexRep, Remaining, SideRep,
        LevelRep, BestOf, Total, Wrap;
      var opposite := if side.Buy? then asks else bids;
      filled := 0;
      ghost var t, done: seq<Event> := Trade(spec, id, side, limit, qty), [];
      RemainingStarts(spec, id, side, limit, qty);
      while filled < qty && opposite.Keys != {}
        invariant Wf(spec) && IndexRep(index, spec) && nextMatchId == spec.nextMatch && filled <= qty
        invariant SideRep(opposite, spec.On(Opposite(side)))
        invariant spec.On(side) == old(spec).On(side) && bids == old(bids) && asks == old(asks)
        invariant events == old(events) + done && Remaining(t, filled, done, spec, id, side, limit, qty - filled)
        decreases qty - filled
      {
        BestKey(opposite, spec.On(Opposite(side)), Opposite(side));
        var p := BestOf(Opposite(side), opposite.Keys);
        if !Crosses(side, limit, p) { break; }
        ghost var s0, j := spec, Job(id, side, limit, qty - filled, spec, p);
        StartJob(j, opposite, index);
        var level, got;
        ghost var more;
        level, got, more := ConsumeLevel(opposite[p], id, side, qty - filled, j);
        SideRepAfterLevel(opposite, s0.On(Opposite(side)), spec.On(Opposite(side)), p);
        RemainingCompose(t, filled, done, s0, id, side, limit, qty - filled, got, more, spec);
        assert old(events) + done + more == old(events) + (done + more);
        done := done + more;
        filled := filled + got;
        opposite := if level.orders == [] then opposite - {p} else opposite[p := level];
      }
      BestKey(opposite, spec.On(Opposite(side)), Opposite(side));
      RemainingEnds(t, filled, done, spec, id, side, limit, qty - filled);
      if side.Buy? { asks := opposite; } else { bids := opposite; }
    }

    method Rest(id: nat, side: Side, price: int, qty: nat)
      requires Valid() && price > 0 && qty > 0 && spec.Find(id).None? && !WouldCross(spec, side, price)
      modifies `bids, `asks, `index, `spec
      ensures Valid() && spec == Book.Rest(old(spec), id, side, price, qty)
    {
      hide AtPrice, Get, Insert, Sorted, UniqueIds, Apart, IndexRep, SideRep, LevelRep, Total, Wrap;
      var m := if side.Buy? then bids else asks;
      var o := Order(id, side, price, qty);
      RestKeeps(spec, id, side, price, qty);
      SideRepAfterRest(m, spec.On(side), o);
      IndexAfterRest(index, spec, id, side, price, qty);
      var level := if price in m then m[price] else Level(0, []);
      level := Level(Wrap(level.total + qty), level.orders + [o]);
      if side.Buy? { bids := bids[price := level]; } else { asks := asks[price := level]; }
      index := index[id := Handle(side, price)];
      spec := Book.Rest(spec, id, side, price, qty);
    }

    /** Match, then rest what is left. */
    method Admit(id: nat, side: Side, price: int, qty: nat) returns (filled: nat, resting: nat)
      requires Valid() && price > 0 && qty > 0 && spec.Find(id).None?
      modifies this
      ensures Valid()
      ensures var t := Enter(old(spec), id, side, price, qty);
        spec == t.s && t.reply == AddReply(Ok, filled, resting) && events == old(events) + t.events
    {
      hide Trade, Book.Match, AtPrice, Get, Insert, Wf, IndexRep, SideRep;
      TradeStops(spec, id, side, price, qty);
      TradeAddsNoIds(spec, id, side, price, qty, id);
      ghost var t := Trade(spec, id, side, price, qty);
      filled := Match(id, side, price, qty);
      resting := qty - filled;
      if resting > 0 {
        Rest(id, side, price, resting);
        events := events + [Added(id, side, price, resting)];
        assert old(events) + t.events + [Added(id, side, price, resting)]
          == old(events) + (t.events + [Added(id, side, price, resting)]);
      }
    }

    method Add(id: nat, side: Side, price: int, qty: nat) returns (status: AddStatus, filled: nat, resting: nat)
      requires Valid()
      modifies this
      ensures Valid()
      ensures var t := Apply(old(spec), Command.Add(id, side, price, qty));
        spec == t.s && t.reply == AddReply(status, filled, resting) && events == old(events) + t.events
    {
      hide Enter, Get, Wf, SideRep;
      if price <= 0 { return BadPrice, 0, 0; }
      if qty == 0 { return BadQty, 0, 0; }
      if id in index { return DuplicateId, 0, 0; }
      filled, resting := Admit(id, side, price, qty);
      status := Ok;
    }

    method Erase(id: nat)
      requires Valid() && id in index
      modifies `bids, `asks, `index, `spec
      ensures Valid()
      ensures old(spec).Find(id).Some? && var side := old(spec).Find(id).value.side;
        spec == old(spec).With(side, Remove(old(spec).On(side), id))
    {
      ghost var o := spec.Find(id).value;
      var h := index[id];
      var m := if h.side.Buy? then bids else asks;
      hide Get, Remove, AtPrice, Sorted, UniqueIds, Apart, Total, Wrap, SideRep, LevelRep;
      FindSide(spec, id);
      ShrinkKeeps(spec, o.side, id, 0);
      InItsLevel(m, spec, id);
      SideRepAfterRemove(m, spec, id);
      IndexAfterRemove(index, spec, id, 0);
      var level := m[h.price];
      var orders := Remove(level.orders, id);
      var total := Wrap(level.total - Get(level.orders, id).value.open);
      m := if orders == [] then m - {h.price} else m[h.price := Level(total, orders)];
      if h.side.Buy? { bids := m; } else { asks := m; }
      index := index - {id};
      spec := spec.With(o.side, Remove(spec.On(o.side), id));
    }

    method Cancel(id: nat, keep: nat) returns (ok: bool)
      requires Valid()
      modifies this
      ensures Valid()
      ensures var t := Apply(old(spec), Command.Cancel(id, keep));
        spec == t.s && t.reply == BoolReply(ok) && events == old(events) + t.events
    {
      if id !in index { return false; }
      ghost var o := spec.Find(id).value;
      var h := index[id];
      var m := if h.side.Buy? then bids else asks;
      hide Get, Remove, SetOpen, AtPrice, Sorted, UniqueIds, Apart, Total, Wrap, SideRep, LevelRep;
      InItsLevel(m, spec, id);
      var level := m[h.price];
      var order := Get(level.orders, id).value;
      if keep >= order.open { return false; }
      if keep == 0 {
        Erase(id);
        events := events + [Canceled(id, order.open, true)];
      } else {
        ShrinkKeeps(spec, o.side, id, keep);
        SideRepAfterSetOpen(m, spec, id, keep);
        IndexAfterRemove(index, spec, id, keep);
        var canceled := order.open - keep;
        m := m[h.price := Level(Wrap(level.total - canceled), SetOpen(level.orders, id, keep))];
        if h.side.Buy? { bids := m; } else { asks := m; }
        spec := spec.With(o.side, SetOpen(spec.On(o.side), id, keep));
        events := events + [Canceled(id, canceled, false)];
      }
      return true;
    }

    method CrossesNow(side: Side, price: int) returns (b: bool)
      requires Valid()
      ensures b == WouldCross(spec, side, price)
    {
      var m := if side.Buy? then asks else bids;
      BestKey(m, spec.On(Opposite(side)), Opposite(side));
      b := m.Keys != {} && Crosses(side, price, BestOf(Opposite(side), m.Keys));
    }

    method Replace(oldId: nat, newId: nat, price: int, qty: nat) returns (ok: bool)
      requires Valid()
      modifies this
      ensures Valid()
      ensures var t := Apply(old(spec), Command.Replace(oldId, newId, price, qty));
        spec == t.s && t.reply == BoolReply(ok) && events == old(events) + t.events
    {
      if oldId !in index || newId == oldId || newId in index || price <= 0 || qty == 0 { return false; }
      ghost var o := spec.Find(oldId).value;
      var h := index[oldId];
      var m := if h.side.Buy? then bids else asks;
      InItsLevel(m, spec, oldId);
      var open := Get(m[h.price].orders, oldId).value.open;
      FindSide(spec, oldId);
      GetAfterRemove(spec.On(h.side), oldId, newId);
      hide Get, Remove, Wf, SideRep, IndexRep, Enter;
      Erase(oldId);
      ghost var s1 := spec;
      var crossing := CrossesNow(h.side, price);
      if crossing {
        events := events + [Canceled(oldId, open, true)];
        var filled, resting := Admit(newId, h.side, price, qty);
        assert old(events) + [Canceled(oldId, open, true)] + Enter(s1, newId, h.side, price, qty).events
            == old(events) + ([Canceled(oldId, open, true)] + Enter(s1, newId, h.side, price, qty).events);
      } else {
        Rest(newId, h.side, price, qty);
        events := events + [Replaced(oldId, newId, h.side, price, qty)];
      }
      return true;
    }

    method BestPrice(side: Side) returns (p: Option<int>)
      requires Valid()
      ensures p == if spec.On(side) == [] then None else Some(spec.On(side)[0].price)
    {
      var m := if side.Buy? then bids else asks;
      BestKey(m, spec.On(side), side);
      p := if m.Keys == {} then None else Some(BestOf(side, m.Keys));
    }

    method SideSnapshot(side: Side) returns (levels: seq<SnapshotLevel>)
      requires Valid()
      ensures levels == Levels(spec.On(side))
    {
      var m := if side.Buy? then bids else asks;
      ghost var l := spec.On(side);
      var ps := BestFirst(side, m.Keys);
      WalkLevels(m, l, side);
      hide *;
      levels := [];
      var i := 0;
      while i < |ps|
        invariant i <= |ps| && levels == LevelsAt(l, ps[..i])
      {
        WalkOne(m, l, ps, i);
        levels := levels + [SnapshotLevel(ps[i], Shown(m[ps[i]].orders))];
        i := i + 1;
      }
    }

    method Snapshot() returns (snap: BookSnapshot)
      requires Valid()
      ensures snap == Snapshots.Snapshot(spec)
    {
      var b := SideSnapshot(Buy);
      var a := SideSnapshot(Sell);
      snap := BookSnapshot(b, a);
    }
  }

  lemma {:induction false} WalkLevels(m: map<int, Level>, l: seq<Order>, side: Side)
    requires Sorted(l, side) && SideRep(m, l)
    ensures var ps := BestFirst(side, m.Keys);
      && Levels(l) == LevelsAt(l, ps) && LevelsAt(l, ps[..0]) == [] && ps[..|ps|] == ps
      && forall i | 0 <= i < |ps| :: ps[i] in m && m[ps[i]].orders == AtPrice(l, ps[i])
  {
    var ps := BestFirst(side, m.Keys);
    BestFirstOrders(side, m.Keys);
    assert PricesOf(l, ps) by {
      forall p ensures p in ps <==> AtPrice(l, p) != [] { assert LevelRep(m, l, p); }
    }
    LevelsByPrice(l, side, ps);
    forall i | 0 <= i < |ps| ensures ps[i] in m && m[ps[i]].orders == AtPrice(l, ps[i]) {
      assert ps[i] in ps && LevelRep(m, l, ps[i]);
    }
  }

  lemma {:induction false} WalkOne(m: map<int, Level>, l: seq<Order>, ps: seq<int>, i: nat)
    requires i < |ps| && ps[i] in m && m[ps[i]].orders == AtPrice(l, ps[i])
    ensures LevelsAt(l, ps[..i + 1]) == LevelsAt(l, ps[..i]) + [SnapshotLevel(ps[i], Shown(m[ps[i]].orders))]
  {
    assert ps[..i + 1] == ps[..i] + [ps[i]];
    LevelsAtAppend(l, ps[..i], ps[i]);
  }

  lemma {:induction false} StartJob(j: Job, m: map<int, Level>, index: map<nat, Handle>)
    requires Wf(j.s0) && IndexRep(index, j.s0) && SideRep(m, j.s0.On(Opposite(j.side)))
    requires WouldCross(j.s0, j.side, j.limit) && j.p == j.s0.On(Opposite(j.side))[0].price
    ensures j.Started() && j.p in m && m[j.p].orders != [] && j.At(j.s0, index, m[j.p], 0, [])
  {
    assert LevelRep(m, j.s0.On(Opposite(j.side)), j.p);
    RemainingStarts(j.s0, j.id, j.side, j.limit, j.want);
  }
}
