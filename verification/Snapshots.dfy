/** Snapshots: the price levels of each side, best first, each with its orders in queue order. */
module Snapshots {
  import opened Book
  import opened BookLemmas

  datatype SnapshotOrder = SnapshotOrder(id: nat, qty: nat)
  datatype SnapshotLevel = SnapshotLevel(price: int, orders: seq<SnapshotOrder>)
  datatype BookSnapshot = BookSnapshot(bids: seq<SnapshotLevel>, asks: seq<SnapshotLevel>)

  function Shown(q: seq<Order>): seq<SnapshotOrder> {
    if q == [] then [] else [SnapshotOrder(q[0].id, q[0].open)] + Shown(q[1..])
  }

  /** Groups neighbours of equal price. */
  function Levels(l: seq<Order>): seq<SnapshotLevel> {
    if l == [] then []
    else
      var rest := Levels(l[1..]);
      var o := SnapshotOrder(l[0].id, l[0].open);
      if rest != [] && rest[0].price == l[0].price then
        [SnapshotLevel(l[0].price, [o] + rest[0].orders)] + rest[1..]
      else
        [SnapshotLevel(l[0].price, [o])] + rest
  }

  function Snapshot(s: State): BookSnapshot {
    BookSnapshot(Levels(s.bids), Levels(s.asks))
  }

  /** The lines of a snapshot: price, order and open quantity. */
  function Lines(levels: seq<SnapshotLevel>): seq<(int, nat, nat)> {
    if levels == [] then []
    else
      var v := levels[0];
      seq(|v.orders|, i requires 0 <= i < |v.orders| => (v.price, v.orders[i].id, v.orders[i].qty)) + Lines(levels[1..])
  }

  function LineOf(o: Order): (int, nat, nat) {
    (o.price, o.id, o.open)
  }

  /** Read from top to bottom, a snapshot lists exactly the orders of the side, in their order. */
  lemma {:induction false} SnapshotLines(l: seq<Order>)
    ensures Lines(Levels(l)) == seq(|l|, i requires 0 <= i < |l| => LineOf(l[i]))
  {
    if l != [] {
      SnapshotLines(l[1..]);
      assert Lines(Levels(l)) == [LineOf(l[0])] + Lines(Levels(l[1..])) by { FirstLine(l); }
      assert seq(|l|, i requires 0 <= i < |l| => LineOf(l[i]))
        == [LineOf(l[0])] + seq(|l[1..]|, i requires 0 <= i < |l[1..]| => LineOf(l[1..][i]));
    }
  }

  lemma {:induction false} FirstLine(l: seq<Order>)
    requires l != []
    ensures Lines(Levels(l)) == [LineOf(l[0])] + Lines(Levels(l[1..]))
  {
    var all, rest := Levels(l), Levels(l[1..]);
    if rest != [] && rest[0].price == l[0].price {
      var v, w := all[0], rest[0];
      assert all[1..] == rest[1..];
      assert seq(|v.orders|, i requires 0 <= i < |v.orders| => (v.price, v.orders[i].id, v.orders[i].qty))
        == [LineOf(l[0])]
          + seq(|w.orders|, i requires 0 <= i < |w.orders| => (w.price, w.orders[i].id, w.orders[i].qty));
    } else {
      assert all[1..] == rest;
    }
  }

  // ---------------------------------------------------------------- ordered prices

  /** The key an ordered map of this side yields first. */
  function BestOf(side: Side, ps: set<int>): (p: int)
    requires ps != {}
    ensures p in ps && forall q | q in ps :: !Better(side, q, p)
  {
    BestExists(side, ps);
    var p :| p in ps && forall q | q in ps :: !Better(side, q, p);
    p
  }

  lemma {:induction false} BestExists(side: Side, ps: set<int>)
    requires ps != {}
    ensures exists p :: p in ps && forall q | q in ps :: !Better(side, q, p)
    decreases |ps|
  {
    var x :| x in ps;
    if ps == {x} {
      assert forall q | q in ps :: !Better(side, q, x);
    } else {
      BestExists(side, ps - {x});
      var y :| y in ps - {x} && forall q | q in ps - {x} :: !Better(side, q, y);
      var p := if Better(side, x, y) then x else y;
      assert p in ps && forall q | q in ps :: !Better(side, q, p) by {
        forall q | q in ps ensures !Better(side, q, p) { if q != x { assert q in ps - {x}; } }
      }
    }
  }

  /** The order in which an ordered map of this side is walked. */
  function BestFirst(side: Side, ps: set<int>): seq<int>
    decreases |ps|
  {
    if ps == {} then [] else var p := BestOf(side, ps); [p] + BestFirst(side, ps - {p})
  }

  predicate StrictlyOrdered(side: Side, ps: seq<int>) {
    ps != [] ==> (|ps| > 1 ==> Better(side, ps[0], ps[1])) && StrictlyOrdered(side, ps[1..])
  }

  lemma {:induction false} BestFirstOrders(side: Side, ps: set<int>)
    ensures StrictlyOrdered(side, BestFirst(side, ps))
    ensures forall p :: p in BestFirst(side, ps) <==> p in ps
    decreases |ps|
  {
    if ps != {} {
      var p := BestOf(side, ps);
      var rest := BestFirst(side, ps - {p});
      BestFirstOrders(side, ps - {p});
      assert ([p] + rest)[1..] == rest;
      if rest != [] {
        assert rest[0] in ps - {p};
      }
    }
  }

  lemma {:induction false} OrderedHead(side: Side, ps: seq<int>)
    requires StrictlyOrdered(side, ps) && ps != []
    ensures forall p | p in ps[1..] :: Better(side, ps[0], p)
    ensures forall p | p in ps :: p in ps[1..] || p == ps[0]
  {
    if |ps| > 1 {
      OrderedHead(side, ps[1..]);
      forall p | p in ps[1..] ensures Better(side, ps[0], p) {
        if p != ps[1] { assert p in ps[1..][1..]; }
      }
    }
  }

  // ---------------------------------------------------------------- level by level

  function LevelAt(l: seq<Order>, p: int): SnapshotLevel {
    SnapshotLevel(p, Shown(AtPrice(l, p)))
  }

  function LevelsAt(l: seq<Order>, ps: seq<int>): seq<SnapshotLevel> {
    if ps == [] then [] else [LevelAt(l, ps[0])] + LevelsAt(l, ps[1..])
  }

  /** `ps` lists the prices at which `l` has orders. */
  ghost predicate PricesOf(l: seq<Order>, ps: seq<int>) {
    forall p :: p in ps <==> AtPrice(l, p) != []
  }

  lemma {:induction false} LevelsAtSame(l: seq<Order>, l': seq<Order>, ps: seq<int>)
    requires forall p | p in ps :: AtPrice(l, p) == AtPrice(l', p)
    ensures LevelsAt(l, ps) == LevelsAt(l', ps)
  {
    if ps != [] { LevelsAtSame(l, l', ps[1..]); }
  }

  lemma {:induction false} BestPriceFirst(l: seq<Order>, side: Side, ps: seq<int>)
    requires Sorted(l, side) && l != [] && StrictlyOrdered(side, ps) && PricesOf(l, ps)
    ensures ps != [] && ps[0] == l[0].price
  {
    assert AtPrice(l, l[0].price) != [];
    assert l[0].price in ps;
    OrderedHead(side, ps);
    if Better(side, ps[0], l[0].price) {
      NothingBeyondBest(l, side, ps[0]);
      assert false;
    }
  }

  /** Walking the prices of a side best first, each with its queue, yields its snapshot. */
  lemma {:induction false} LevelsByPrice(l: seq<Order>, side: Side, ps: seq<int>)
    requires Sorted(l, side) && StrictlyOrdered(side, ps) && PricesOf(l, ps)
    ensures Levels(l) == LevelsAt(l, ps)
  {
    assert ps != [] ==> ps[0] in ps;
    if l != [] {
      BestPriceFirst(l, side, ps);
      OrderedHead(side, ps);
      var t, p := l[1..], ps[0];
      if t != [] && t[0].price == p {
        assert PricesOf(t, ps);
        LevelsByPrice(t, side, ps);
        assert Levels(t)[0] == LevelAt(t, p) && Levels(t)[1..] == LevelsAt(t, ps[1..]);
      } else {
        NothingElseAt(l, side);
        assert PricesOf(t, ps[1..]) by {
          forall q ensures q in ps[1..] <==> AtPrice(t, q) != [] {
            if q != p { assert AtPrice(l, q) == AtPrice(t, q); }
          }
        }
        LevelsByPrice(t, side, ps[1..]);
        if Levels(t) != [] { assert Levels(t)[0].price == ps[1]; }
        assert AtPrice(t, p) == [];
      }
      LevelsAtSame(l, t, ps[1..]);
      assert AtPrice(l, p) == [l[0]] + AtPrice(t, p) && AtPrice(l, p)[1..] == AtPrice(t, p);
      assert LevelAt(l, p).orders == [SnapshotOrder(l[0].id, l[0].open)] + Shown(AtPrice(t, p));
      assert Levels(l)[0] == LevelAt(l, p) && Levels(l)[1..] == LevelsAt(t, ps[1..]);
    }
  }

  lemma {:induction false} NothingElseAt(l: seq<Order>, side: Side)
    requires Sorted(l, side) && l != [] && (|l| > 1 ==> l[1].price != l[0].price)
    ensures AtPrice(l[1..], l[0].price) == []
  {
    if |l| > 1 { NothingBeyondBest(l[1..], side, l[0].price); }
  }

  lemma {:induction false} LevelsAtAppend(l: seq<Order>, ps: seq<int>, p: int)
    ensures LevelsAt(l, ps + [p]) == LevelsAt(l, ps) + [LevelAt(l, p)]
  {
    if ps == [] {
      assert ps + [p] == [p];
    } else { assert (ps + [p])[1..] == ps[1..] + [p]; LevelsAtAppend(l, ps[1..], p); }
  }
}
