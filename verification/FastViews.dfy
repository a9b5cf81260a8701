/** Reading the optimised book, on values: how much crosses a limit, and what a snapshot shows. */
module FastViews {
  import opened Book
  import opened Snapshots
  import opened Arena
  import opened Ladder
  import opened FastSteps
  import opened FastConsume

  // ---------------------------------------------------------------- totals by price

  /** Total open quantity at the given prices. */
  function PartTotal(l: seq<Order>, ps: set<int>): nat {
    if l == [] then 0 else (if l[0].price in ps then l[0].open else 0) + PartTotal(l[1..], ps)
  }

  lemma {:induction false} PartAdd(l: seq<Order>, ps: set<int>, p: int)
    requires p !in ps
    ensures PartTotal(l, ps + {p}) == PartTotal(l, ps) + Total(AtPrice(l, p))
  {
    if l != [] {
      PartAdd(l[1..], ps, p);
      if l[0].price == p { assert AtPrice(l, p)[1..] == AtPrice(l[1..], p); }
    }
  }

  lemma {:induction false} PartNone(l: seq<Order>)
    ensures PartTotal(l, {}) == 0
  {
    if l != [] { PartNone(l[1..]); }
  }

  lemma {:induction false} PartIsCross(l: seq<Order>, ps: set<int>, side: Side, limit: int)
    requires forall o | o in l :: o.price in ps <==> Crosses(side, limit, o.price)
    ensures PartTotal(l, ps) == CrossTotal(l, side, limit)
  {
    if l != [] {
      assert l[0] in l;
      PartIsCross(l[1..], ps, side, limit);
    }
  }

  lemma {:induction false} PriceInUse(l: seq<Order>, o: Order)
    requires o in l
    ensures AtPrice(l, o.price) != []
  {
    if l[0] != o { PriceInUse(l[1..], o); }
  }

  // ---------------------------------------------------------------- the ladder part

  /** A scan for an incoming order on `side` reaches `u` before `t`. */
  predicate Before(side: Side, u: int, t: int) {
    if side.Buy? then u < t else u > t
  }

  /** The scan has come to `t`, and `seen` are the prices it has passed. */
  ghost predicate Scanned(st: Store, s: State, side: Side, limit: int, seen: set<int>, t: int)
    requires st.tick > 0
  {
    && (forall p | p in seen ::
          st.TickIndex(p) >= 0 && Before(side, st.TickIndex(p), t)
          && (AtPrice(s.On(Opposite(side)), p) != [] ==> Crosses(side, limit, p)))
    && (forall u | 0 <= u < |st.ladder| && Before(side, u, t)
      && Shows(st, s, Opposite(side), u) :: st.PriceAt(u) in seen)
  }

  /** Of the prices in use on the ladder, exactly those that cross have been seen. */
  ghost predicate LadderDone(st: Store, s: State, side: Side, limit: int, seen: set<int>)
    requires st.tick > 0
  {
    && (forall p | p in seen :: st.TickIndex(p) >= 0)
    && (forall p | st.TickIndex(p) >= 0 && AtPrice(s.On(Opposite(side)), p) != [] ::
          p in seen <==> Crosses(side, limit, p))
  }

  lemma {:induction false} ScanStarts(st: Store, s: State, side: Side, limit: int, t: int)
    requires st.tick > 0 && LadderBest(st, s, Opposite(side), t)
    ensures if t >= 0 then Scanned(st, s, side, limit, {}, t) else LadderDone(st, s, side, limit, {})
  {
    if t >= 0 {
      forall u | 0 <= u < |st.ladder| && Before(side, u, t) ensures !Shows(st, s, Opposite(side), u) {
        PriceOrder(st, u, t);
        PriceOrder(st, t, u);
      }
    } else {
      forall p | st.TickIndex(p) >= 0 ensures AtPrice(s.On(Opposite(side)), p) == [] {
        PriceOfTick(st, p);
        assert !Shows(st, s, Opposite(side), st.TickIndex(p));
      }
    }
  }

  /** Passing a level that is not of the opposite side, or that crosses. */
  lemma {:induction false} ScanOn(st: Store, s: State, side: Side, limit: int, seen: set<int>, t: int, t': int)
    requires st.tick > 0 && st.bandSet && Scanned(st, s, side, limit, seen, t) && 0 <= t < |st.ladder|
    requires t' == if side.Buy? then t + 1 else t - 1
    requires Shows(st, s, Opposite(side), t) ==> Crosses(side, limit, st.PriceAt(t))
    ensures st.PriceAt(t) !in seen && Scanned(st, s, side, limit, seen + {st.PriceAt(t)}, t')
  {
    TickOfPrice(st, t);
    hide Store.TickIndex, Store.PriceAt, AtPrice;
  }

  lemma {:induction false} ScanStops(st: Store, s: State, side: Side, limit: int, seen: set<int>, t: int)
    requires st.tick > 0 && st.bandSet && Scanned(st, s, side, limit, seen, t)
    requires 0 <= t < |st.ladder| ==> !Crosses(side, limit, st.PriceAt(t))
    requires -1 <= t <= |st.ladder| && (side.Buy? ==> t >= 0) && (side.Sell? ==> t < |st.ladder|)
    ensures LadderDone(st, s, side, limit, seen)
  {
    forall p | st.TickIndex(p) >= 0 && AtPrice(s.On(Opposite(side)), p) != [] ensures p in seen
      <==> Crosses(side, limit, p) {
      var u := st.TickIndex(p);
      PriceOfTick(st, p);
      assert Shows(st, s, Opposite(side), u);
      if !Before(side, u, t) {
        PriceOrder(st, u, t);
        PriceOrder(st, t, u);
      }
    }
  }

  // ---------------------------------------------------------------- the fallback part

  /** Of the prices in use, the first `i` fallback prices and the crossing ladder prices have been seen. */
  ghost predicate FallbackScanned(st: Store, s: State, side: Side, limit: int, seen: set<int>, ps: seq<int>, i: nat)
    requires st.tick > 0 && i <= |ps|
  {
    && (forall p | st.TickIndex(p) >= 0 && AtPrice(s.On(Opposite(side)), p) != [] ::
          p in seen <==> Crosses(side, limit, p))
    && (forall p | st.TickIndex(p) < 0 :: p in seen <==> p in ps[..i])
    && (forall k | 0 <= k < i :: Crosses(side, limit, ps[k]))
  }

  lemma {:induction false} FallbackOn(st: Store, s: State, side: Side, limit: int, seen: set<int>, ps: seq<int>, i: nat)
    requires st.tick > 0 && i < |ps| && FallbackScanned(st, s, side, limit, seen, ps, i)
    requires Crosses(side, limit, ps[i]) && st.TickIndex(ps[i]) < 0 && ps[i] !in ps[..i]
    ensures ps[i] !in seen && FallbackScanned(st, s, side, limit, seen + {ps[i]}, ps, i + 1)
  {
    hide Store.TickIndex, AtPrice;
    assert ps[..i + 1] == ps[..i] + [ps[i]];
  }

  lemma {:induction false} StrictlyWorse(side: Side, ps: seq<int>, i: nat, j: nat)
    requires StrictlyOrdered(side, ps) && i < j < |ps|
    ensures Better(side, ps[i], ps[j])
  {
    OrderedHead(side, ps);
    if i == 0 { assert ps[j] == ps[1..][j - 1]; } else { StrictlyWorse(side, ps[1..], i - 1, j - 1); }
  }

  lemma {:induction false} NoRepeats(side: Side, ps: seq<int>, i: nat)
    requires StrictlyOrdered(side, ps) && i < |ps|
    ensures ps[i] !in ps[..i]
  {
    if ps[i] in ps[..i] {
      var k :| 0 <= k < i && ps[..i][k] == ps[i];
      StrictlyWorse(side, ps, k, i);
    }
  }

  lemma {:induction false} FallbackStops(st: Store, c: Index, s: State, side: Side, limit: int, seen: set<int>,
      ps: seq<int>, i: nat)
    requires StoreRep(st, c, s) && i <= |ps| && FallbackScanned(st, s, side, limit, seen, ps, i)
    requires StrictlyOrdered(Opposite(side), ps) && forall p :: p in ps <==> p in st.Fallback(Opposite(side))
    requires i < |ps| ==> !Crosses(side, limit, ps[i])
    ensures PartTotal(s.On(Opposite(side)), seen) == CrossTotal(s.On(Opposite(side)), side, limit)
  {
    var l := s.On(Opposite(side));
    forall o | o in l ensures o.price in seen <==> Crosses(side, limit, o.price) {
      PriceInUse(l, o);
      assert PriceRep(st, c, s, o.price);
      if st.TickIndex(o.price) < 0 {
        assert o.price in st.Fallback(Opposite(side)) && o.price in ps;
        var k :| 0 <= k < |ps| && ps[k] == o.price;
        if k < i { assert o.price == ps[..i][k]; }
        else if i < k { StrictlyWorse(Opposite(side), ps, i, k); }
      }
    }
    PartIsCross(l, seen, side, limit);
  }

  // ---------------------------------------------------------------- snapshots

  /** `m` holds the levels of this side on the first `i` ladder ticks. */
  ghost predicate Collected(st: Store, c: Index, s: State, side: Side, m: map<int, Level>, i: int)
    requires st.tick > 0
  {
    forall p ::
      && (p in m <==> 0 <= st.TickIndex(p) < i && AtPrice(s.On(side), p) != [])
      && (p in m ==> m[p] == LevelOf(c, AtPrice(s.On(side), p)))
  }

  lemma {:induction false} CollectOne(st: Store, pool: seq<FOrder>, c: Index, free: seq<nat>, s: State, side: Side,
      m: map<int, Level>, i: int)
    requires Rep(st, pool, c, free, s) && st.bandSet && 0 <= i < |st.ladder| && Collected(st, c, s, side, m, i)
    ensures st.ladder[i].head != NIL ==> 0 <= st.ladder[i].head < |pool|
    ensures Collected(st, c, s, side, if st.ladder[i].head != NIL
      && pool[st.ladder[i].head].side == side then m[st.PriceAt(i) := st.ladder[i]] else m, i + 1)
  {
    LadderShows(st, pool, c, free, s, side, i);
    TickOfPrice(st, i);
    hide Rep, AtPrice, LevelOf, Store.PriceAt;
    forall p | st.TickIndex(p) == i ensures p == st.PriceAt(i) { PriceOfTick(st, p); }
    hide Store.TickIndex;
  }

  /** All levels of a side. */
  ghost predicate AllLevels(c: Index, s: State, side: Side, m: map<int, Level>) {
    forall p ::
      && (p in m <==> AtPrice(s.On(side), p) != [])
      && (p in m ==> m[p] == LevelOf(c, AtPrice(s.On(side), p)))
  }

  lemma {:induction false} CollectFallback(st: Store, c: Index, s: State, side: Side, m: map<int, Level>)
    requires StoreRep(st, c, s) && Collected(st, c, s, side, m, |st.ladder|)
    ensures AllLevels(c, s, side, m + st.Fallback(side))
  {
    hide AtPrice, LevelOf, Store.TickIndex;
    var m' := m + st.Fallback(side);
    forall p ensures (p in m' <==> AtPrice(s.On(side), p) != [])
      && (p in m' ==> m'[p] == LevelOf(c, AtPrice(s.On(side), p))) {
      assert PriceRep(st, c, s, p);
    }
  }

  lemma {:induction false} ShownAppend(q: seq<Order>, o: Order)
    ensures Shown(q + [o]) == Shown(q) + [SnapshotOrder(o.id, o.open)]
  {
    if q == [] { assert q + [o] == [o]; } else { assert (q + [o])[1..] == q[1..] + [o]; ShownAppend(q[1..], o); }
  }

  /** Following the links from the head walks the queue. */
  lemma {:induction false} WalkQueue(pool: seq<FOrder>, c: Index, q: seq<Order>, k: nat)
    requires Linked(pool, c, q) && k <= |q|
    ensures Ref(c, q, k) == NIL <==> k == |q|
    ensures k < |q| ==> var x := Ref(c, q, k);
      && 0 <= x < |pool| && pool[x].next == Ref(c, q, k + 1)
      && Shown(q[..k + 1]) == Shown(q[..k]) + [SnapshotOrder(pool[x].id, pool[x].open)]
    ensures q[..|q|] == q && Shown(q[..0]) == []
  {
    if k < |q| {
      assert NodeAt(pool, c, q, k);
      assert q[..k + 1] == q[..k] + [q[k]];
      ShownAppend(q[..k], q[k]);
    }
  }

  lemma {:induction false} SnapshotOfLevels(c: Index, s: State, side: Side, m: map<int, Level>)
    requires Wf(s) && AllLevels(c, s, side, m)
    ensures var ps := BestFirst(side, m.Keys);
      && Levels(s.On(side)) == LevelsAt(s.On(side), ps) && LevelsAt(s.On(side), ps[..0]) == [] && ps[..|ps|] == ps
      && forall i | 0 <= i < |ps| ::
          ps[i] in m && AtPrice(s.On(side), ps[i]) != [] && m[ps[i]] == LevelOf(c, AtPrice(s.On(side), ps[i]))
  {
    var l, ps := s.On(side), BestFirst(side, m.Keys);
    BestFirstOrders(side, m.Keys);
    assert PricesOf(l, ps);
    LevelsByPrice(l, side, ps);
    forall p | p in ps ensures p in m && AtPrice(l, p) != [] && m[p] == LevelOf(c, AtPrice(l, p)) {
      assert p in BestFirst(side, m.Keys) <==> p in m.Keys;
    }
    hide AtPrice, LevelOf, BestFirst, Wf;
    assert forall i | 0 <= i < |ps| :: ps[i] in ps;
  }
}
