/**
 The order arena of the optimised book: pooled orders with intrusive queue links, and the free list.

 No ghost structure describes the links. The index (`c`: order id to pool slot) and the queues of the
 specification determine what every link has to be, so the invariant simply says that it is.
 */
module Arena {
  import opened Book
  import opened BookLemmas
  import opened Matching

  /** The null link. */
  const NIL := -1

  datatype FOrder = FOrder(id: nat, price: int, open: nat, prev: int, next: int, side: Side)
  datatype Level = Level(total: nat, head: int, tail: int)

  const EMPTY_LEVEL := Level(0, NIL, NIL)

  type Index = map<nat, int>

  /** The pool slot of the `k`-th order of a queue; the null link beyond either end. */
  function Ref(c: Index, q: seq<Order>, k: int): int {
    if 0 <= k < |q| && q[k].id in c then c[q[k].id] else NIL
  }

  function Node(c: Index, q: seq<Order>, k: int): FOrder
    requires 0 <= k < |q|
  {
    FOrder(q[k].id, q[k].price, q[k].open, Ref(c, q, k - 1), Ref(c, q, k + 1), q[k].side)
  }

  /** The `k`-th order of the queue is in the pool, linked to its neighbours. */
  ghost predicate NodeAt(pool: seq<FOrder>, c: Index, q: seq<Order>, k: int) {
    0 <= k < |q| && q[k].id in c && 0 <= c[q[k].id] < |pool| && pool[c[q[k].id]] == Node(c, q, k)
  }

  ghost predicate Linked(pool: seq<FOrder>, c: Index, q: seq<Order>) {
    forall k | 0 <= k < |q| :: NodeAt(pool, c, q, k)
  }

  /** What the level of a queue has to be. The aggregate is a 32-bit unsigned number. */
  ghost function LevelOf(c: Index, q: seq<Order>): Level {
    Level(Wrap(Total(q)), Ref(c, q, 0), Ref(c, q, |q| - 1))
  }

  /** The index leads to the slots that hold the indexed ids. */
  ghost predicate Indexed(pool: seq<FOrder>, c: Index) {
    forall id | id in c :: 0 <= c[id] < |pool| && pool[c[id]].id == id
  }

  /** A slot is on the free list if and only if the index does not lead to it; nothing is listed twice. */
  ghost predicate FreeRep(pool: seq<FOrder>, c: Index, free: seq<nat>) {
    && (forall i, j | 0 <= i < j < |free| :: free[i] != free[j])
    && (forall i | i in free :: i < |pool|)
    && (forall i | 0 <= i < |pool| :: i in free <==> !(pool[i].id in c && c[pool[i].id] == i))
  }

  /** The index, the slots of all other orders and the size of the pool survive a change to this queue. */
  ghost predicate Frame(pool: seq<FOrder>, c: Index, pool': seq<FOrder>, c': Index, q: seq<Order>) {
    && |pool| <= |pool'|
    && forall id | id in c && Get(q, id).None? ::
         id in c' && c'[id] == c[id] && 0 <= c[id] < |pool| && pool'[c[id]] == pool[c[id]]
  }

  lemma {:induction false} FrameLinked(pool: seq<FOrder>, c: Index, pool': seq<FOrder>, c': Index, q: seq<Order>,
      other: seq<Order>)
    requires Frame(pool, c, pool', c', q) && Linked(pool, c, other)
    requires forall o | o in other :: Get(q, o.id).None?
    ensures Linked(pool', c', other) && LevelOf(c', other) == LevelOf(c, other)
  {
    hide Get, Total;
    forall k ensures Ref(c', other, k) == Ref(c, other, k) {
      if 0 <= k < |other| { assert other[k] in other && NodeAt(pool, c, other, k); }
    }
    forall k | 0 <= k < |other| ensures NodeAt(pool', c', other, k) {
      assert other[k] in other && NodeAt(pool, c, other, k);
    }
  }

  // ---------------------------------------------------------------- positions in a queue

  lemma {:induction false} Position(q: seq<Order>, id: nat, open: nat) returns (k: nat)
    requires Get(q, id).Some?
    ensures k < |q| && q[k] == Get(q, id).value && q[k].id == id
    ensures Remove(q, id) == q[..k] + q[k + 1..]
    ensures SetOpen(q, id, open) == q[k := q[k].(open := open)]
  {
    if q[0].id == id {
      k := 0;
    } else {
      var j := Position(q[1..], id, open);
      k := j + 1;
      assert [q[0]] + q[1..][..j] == q[..k] && q[1..][j + 1..] == q[k + 1..];
    }
  }

  lemma {:induction false} DistinctIds(q: seq<Order>, i: nat, j: nat)
    requires UniqueIds(q) && i < j < |q|
    ensures q[i].id != q[j].id
  {
    if i == 0 {
      if q[j].id == q[0].id {
        assert q[j] == q[1..][j - 1];
        MemberIsFound(q[1..], q[j]);
      }
    } else {
      DistinctIds(q[1..], i - 1, j - 1);
    }
  }

  lemma {:induction false} AllDistinct(q: seq<Order>)
    requires UniqueIds(q)
    ensures forall i, j | 0 <= i < j < |q| :: q[i].id != q[j].id
  {
    forall i, j | 0 <= i < j < |q| ensures q[i].id != q[j].id { DistinctIds(q, i, j); }
  }

  lemma {:induction false} PresentById(q: seq<Order>, k: nat)
    requires k < |q|
    ensures Get(q, q[k].id).Some?
  {
    if k > 0 && q[0].id != q[k].id { PresentById(q[1..], k - 1); }
  }

  // ---------------------------------------------------------------- a change of open quantity

  lemma {:induction false} SetOpenLinked(pool: seq<FOrder>, c: Index, q: seq<Order>, k: nat, open: nat)
    requires Indexed(pool, c) && Linked(pool, c, q) && UniqueIds(q) && k < |q|
    ensures NodeAt(pool, c, q, k)
    ensures var x := c[q[k].id]; var pool' := pool[x := pool[x].(open := open)];
      && Linked(pool', c, q[k := q[k].(open := open)]) && Indexed(pool', c)
      && Frame(pool, c, pool', c, q)
  {
    hide Get, UniqueIds;
    AllDistinct(q);
    assert NodeAt(pool, c, q, k);
    var x, q' := c[q[k].id], q[k := q[k].(open := open)];
    var pool' := pool[x := pool[x].(open := open)];
    assert forall j :: Ref(c, q', j) == Ref(c, q, j);
    forall j | 0 <= j < |q'| ensures NodeAt(pool', c, q', j) { assert NodeAt(pool, c, q, j); }
    forall id | id in c && Get(q, id).None? ensures pool'[c[id]] == pool[c[id]] { PresentById(q, k); }
  }

  // ---------------------------------------------------------------- joining a queue

  /** Puts a new order into slot `x` behind `tail`. */
  function Appended(pool: seq<FOrder>, o: Order, x: nat, tail: int): seq<FOrder>
    requires x < |pool| && NIL <= tail < |pool|
  {
    var pool1 := pool[x := FOrder(o.id, o.price, o.open, tail, NIL, o.side)];
    if tail == NIL then pool1 else pool1[tail := pool1[tail].(next := x)]
  }

  /** `x` is a slot that the index does not lead to, new or recycled. */
  ghost predicate Allocated(pool: seq<FOrder>, c: Index, x: nat, pool1: seq<FOrder>) {
    && |pool| <= |pool1| && x < |pool1|
    && (forall i | 0 <= i < |pool| && i != x :: pool1[i] == pool[i])
    && (forall id | id in c :: c[id] != x)
  }

  lemma {:induction false} TailOf(pool: seq<FOrder>, c: Index, q: seq<Order>, x: nat, pool1: seq<FOrder>)
    requires Indexed(pool, c) && Linked(pool, c, q) && Allocated(pool, c, x, pool1)
    ensures var tail := Ref(c, q, |q| - 1); (tail == NIL <==> q == []) && NIL <= tail < |pool1| && tail != x
  {
    if q != [] { assert NodeAt(pool, c, q, |q| - 1); }
  }

  lemma {:induction false} AppendLinked(pool: seq<FOrder>, c: Index, q: seq<Order>, o: Order, x: nat,
      pool1: seq<FOrder>)
    requires Indexed(pool, c) && Linked(pool, c, q) && o.id !in c && UniqueIds(q) && Allocated(pool, c, x, pool1)
    ensures var tail := Ref(c, q, |q| - 1); var c' := c[o.id := x];
      && NIL <= tail < |pool1| && tail != x
      && Linked(Appended(pool1, o, x, tail), c', q + [o])
      && Ref(c', q + [o], 0) == (if tail == NIL then x else Ref(c, q, 0)) && Ref(c', q + [o], |q|) == x
  {
    hide Get, UniqueIds;
    AllDistinct(q);
    TailOf(pool, c, q, x, pool1);
    var tail, c', q' := Ref(c, q, |q| - 1), c[o.id := x], q + [o];
    forall k | k < |q| ensures Ref(c', q', k) == Ref(c, q, k) {
      if 0 <= k { assert NodeAt(pool, c, q, k); }
    }
    forall k | 0 <= k < |q'| ensures NodeAt(Appended(pool1, o, x, tail), c', q', k) {
      if k < |q| {
        assert NodeAt(pool, c, q, k) && NodeAt(pool, c, q, |q| - 1);
        assert q'[k] == q[k];
      }
    }
    if q != [] { assert NodeAt(pool, c, q, 0); }
  }

  lemma {:induction false} AppendFrame(pool: seq<FOrder>, c: Index, q: seq<Order>, o: Order, x: nat, pool1: seq<FOrder>)
    requires Indexed(pool, c) && Linked(pool, c, q) && o.id !in c && Allocated(pool, c, x, pool1)
    ensures var tail := Ref(c, q, |q| - 1); var c' := c[o.id := x];
      && NIL <= tail < |pool1| && tail != x
      && Indexed(Appended(pool1, o, x, tail), c') && Frame(pool, c, Appended(pool1, o, x, tail), c', q)
  {
    hide Get;
    TailOf(pool, c, q, x, pool1);
    if q != [] {
      assert NodeAt(pool, c, q, |q| - 1);
      PresentById(q, |q| - 1);
    }
  }

  lemma {:induction false} FreeAfterAppend(pool: seq<FOrder>, c: Index, free: seq<nat>, o: Order, tail: int)
    requires Indexed(pool, c) && FreeRep(pool, c, free) && o.id !in c && NIL <= tail < |pool|
    ensures free != [] ==> var x := free[|free| - 1];
      && x < |pool| && Allocated(pool, c, x, pool)
      && (tail != x ==> FreeRep(Appended(pool, o, x, tail), c[o.id := x], free[..|free| - 1]))
    ensures free == [] ==> forall blank ::
      && Allocated(pool, c, |pool|, pool + [blank])
      && FreeRep(Appended(pool + [blank], o, |pool|, tail), c[o.id := |pool|], [])
  {
    if free != [] {
      var x := free[|free| - 1];
      assert x in free;
      var pool', c', free' := Appended(pool, o, x, tail), c[o.id := x], free[..|free| - 1];
      if tail != x {
        assert free == free' + [x];
        assert x !in free' && forall i | i in free' :: i in free;
        forall i | 0 <= i < |pool'| ensures i in free' <==> !(pool'[i].id in c' && c'[pool'[i].id] == i) {
          assert i in free <==> i in free' || i == x;
        }
      }
    }
  }

  // ---------------------------------------------------------------- leaving a queue

  /** Takes slot `x` out of its queue. */
  function Unlinked(pool: seq<FOrder>, x: int): seq<FOrder>
    requires 0 <= x < |pool| && NIL <= pool[x].prev < |pool| && NIL <= pool[x].next < |pool|
  {
    var o := pool[x];
    var pool1 := if o.prev != NIL then pool[o.prev := pool[o.prev].(next := o.next)] else pool;
    var pool2 := if o.next != NIL then pool1[o.next := pool1[o.next].(prev := o.prev)] else pool1;
    pool2[x := pool2[x].(prev := NIL, next := NIL)]
  }

  predicate Detachable(pool: seq<FOrder>, x: int) {
    && 0 <= x < |pool| && NIL <= pool[x].prev < |pool| && NIL <= pool[x].next < |pool|
    && pool[x].prev != x && pool[x].next != x
  }

  lemma {:induction false} UnlinkedAt(pool: seq<FOrder>, x: int, i: int)
    requires Detachable(pool, x) && 0 <= i < |pool|
    ensures |Unlinked(pool, x)| == |pool|
    ensures Unlinked(pool, x)[i]
         == if i == x then pool[i].(prev := NIL, next := NIL)
            else pool[i].(next := if i == pool[x].prev then pool[x].next else pool[i].next,
                          prev := if i == pool[x].next then pool[x].prev else pool[i].prev)
  {
  }

  lemma {:induction false} IsDetachable(pool: seq<FOrder>, c: Index, q: seq<Order>, k: nat)
    requires Indexed(pool, c) && Linked(pool, c, q) && UniqueIds(q) && k < |q|
    ensures NodeAt(pool, c, q, k) && Detachable(pool, c[q[k].id])
    ensures pool[c[q[k].id]] == Node(c, q, k)
  {
    hide UniqueIds;
    AllDistinct(q);
    assert NodeAt(pool, c, q, k);
    if k > 0 { assert NodeAt(pool, c, q, k - 1); }
    if k + 1 < |q| { assert NodeAt(pool, c, q, k + 1); }
  }

  lemma {:induction false} Neighbours(pool: seq<FOrder>, c: Index, q: seq<Order>, k: nat, i: nat)
    requires Indexed(pool, c) && Linked(pool, c, q) && UniqueIds(q) && k < |q| && i < |q|
    ensures NodeAt(pool, c, q, i)
    ensures var x := c[q[i].id];
      (i == k <==> x == Ref(c, q, k)) && (i == k - 1 <==> x == Ref(c, q, k - 1))
        && (i == k + 1 <==> x == Ref(c, q, k + 1))
  {
    hide UniqueIds;
    AllDistinct(q);
    assert NodeAt(pool, c, q, i) && NodeAt(pool, c, q, k);
    if k > 0 { assert NodeAt(pool, c, q, k - 1); }
    if k + 1 < |q| { assert NodeAt(pool, c, q, k + 1); }
  }

  lemma {:induction false} RefAfterRemove(c: Index, q: seq<Order>, k: nat, j: int)
    requires UniqueIds(q) && k < |q| && forall i | 0 <= i < |q| :: q[i].id in c
    ensures Ref(c - {q[k].id}, q[..k] + q[k + 1..], j) == if j < k then Ref(c, q, j) else Ref(c, q, j + 1)
  {
    hide UniqueIds;
    AllDistinct(q);
    var q' := q[..k] + q[k + 1..];
    if 0 <= j < k { assert q'[j] == q[j]; }
    else if k <= j < |q'| { assert q'[j] == q[j + 1]; }
  }

  lemma {:induction false} UnlinkOne(pool: seq<FOrder>, c: Index, q: seq<Order>, k: nat, i: nat)
    requires Indexed(pool, c) && Linked(pool, c, q) && UniqueIds(q) && k < |q| && i < |q| && i != k
    ensures NodeAt(pool, c, q, k) && NodeAt(pool, c, q, i) && Detachable(pool, c[q[k].id])
    ensures |Unlinked(pool, c[q[k].id])| == |pool|
    ensures Unlinked(pool, c[q[k].id])[c[q[i].id]]
         == FOrder(q[i].id, q[i].price, q[i].open,
                   if i == k + 1 then Ref(c, q, k - 1) else Ref(c, q, i - 1),
                   if i + 1 == k then Ref(c, q, k + 1) else Ref(c, q, i + 1), q[i].side)
  {
    IsDetachable(pool, c, q, k);
    Neighbours(pool, c, q, k, i);
    hide UniqueIds, Unlinked;
    UnlinkedAt(pool, c[q[k].id], c[q[i].id]);
  }

  lemma {:induction false} UnlinkNode(pool: seq<FOrder>, c: Index, q: seq<Order>, k: nat, j: nat)
    requires Indexed(pool, c) && Linked(pool, c, q) && UniqueIds(q) && k < |q| && j < |q| - 1
    ensures NodeAt(pool, c, q, k) && Detachable(pool, c[q[k].id])
    ensures NodeAt(Unlinked(pool, c[q[k].id]), c - {q[k].id}, q[..k] + q[k + 1..], j)
  {
    hide UniqueIds, Unlinked;
    forall i | 0 <= i < |q| ensures q[i].id in c { assert NodeAt(pool, c, q, i); }
    var q', i := q[..k] + q[k + 1..], if j < k then j else j + 1;
    UnlinkOne(pool, c, q, k, i);
    RefAfterRemove(c, q, k, j);
    RefAfterRemove(c, q, k, j - 1);
    RefAfterRemove(c, q, k, j + 1);
    assert q'[j] == q[i];
    hide Linked, Indexed;
  }

  lemma {:induction false} UnlinkEnds(pool: seq<FOrder>, c: Index, q: seq<Order>, k: nat)
    requires Indexed(pool, c) && Linked(pool, c, q) && UniqueIds(q) && k < |q|
    ensures NodeAt(pool, c, q, k) && Detachable(pool, c[q[k].id])
    ensures var x := c[q[k].id]; var q' := q[..k] + q[k + 1..]; var c' := c - {q[k].id};
      && Ref(c', q', 0) == (if pool[x].prev == NIL then pool[x].next else Ref(c, q, 0))
      && Ref(c', q', |q'| - 1) == (if pool[x].next == NIL then pool[x].prev else Ref(c, q, |q| - 1))
  {
    hide UniqueIds;
    IsDetachable(pool, c, q, k);
    forall i | 0 <= i < |q| ensures q[i].id in c && Ref(c, q, i) >= 0 { assert NodeAt(pool, c, q, i); }
    RefAfterRemove(c, q, k, 0);
    RefAfterRemove(c, q, k, |q| - 2);
  }

  lemma {:induction false} UnlinkLinked(pool: seq<FOrder>, c: Index, q: seq<Order>, k: nat)
    requires Indexed(pool, c) && Linked(pool, c, q) && UniqueIds(q) && k < |q|
    ensures NodeAt(pool, c, q, k) && Detachable(pool, c[q[k].id])
    ensures Linked(Unlinked(pool, c[q[k].id]), c - {q[k].id}, q[..k] + q[k + 1..])
  {
    IsDetachable(pool, c, q, k);
    hide UniqueIds, Unlinked, NodeAt, Detachable, Indexed;
    var pool', c', q' := Unlinked(pool, c[q[k].id]), c - {q[k].id}, q[..k] + q[k + 1..];
    forall j | 0 <= j < |q'| ensures NodeAt(pool', c', q', j) { UnlinkNode(pool, c, q, k, j); }
  }

  lemma {:induction false} UnlinkFrame(pool: seq<FOrder>, c: Index, q: seq<Order>, k: nat)
    requires Indexed(pool, c) && Linked(pool, c, q) && UniqueIds(q) && k < |q|
    ensures NodeAt(pool, c, q, k) && Detachable(pool, c[q[k].id])
    ensures Frame(pool, c, Unlinked(pool, c[q[k].id]), c - {q[k].id}, q)
      && Indexed(Unlinked(pool, c[q[k].id]), c - {q[k].id})
  {
    IsDetachable(pool, c, q, k);
    hide Get, UniqueIds, Unlinked;
    var x := c[q[k].id];
    UnlinkedAt(pool, x, x);
    PresentById(q, k);
    if k > 0 { PresentById(q, k - 1); assert NodeAt(pool, c, q, k - 1); }
    if k + 1 < |q| { PresentById(q, k + 1); assert NodeAt(pool, c, q, k + 1); }
    forall id | id in c ensures Unlinked(pool, x)[c[id]].id == id
                        ensures Get(q, id).None? ==> Unlinked(pool, x)[c[id]] == pool[c[id]] {
      UnlinkedAt(pool, x, c[id]);
    }
  }

  lemma {:induction false} FreeAfterUnlink(pool: seq<FOrder>, c: Index, free: seq<nat>, id: nat)
    requires Indexed(pool, c) && FreeRep(pool, c, free) && id in c && Detachable(pool, c[id])
    ensures FreeRep(Unlinked(pool, c[id]), c - {id}, free + [c[id]])
  {
    hide Unlinked;
    var x, pool', c' := c[id], Unlinked(pool, c[id]), c - {id};
    assert x !in free;
    UnlinkedAt(pool, x, x);
    forall i | 0 <= i < |pool| ensures pool'[i].id == pool[i].id { UnlinkedAt(pool, x, i); }
    forall i | 0 <= i < |pool'| ensures i in free + [x] <==> !(pool'[i].id in c' && c'[pool'[i].id] == i) {
      if i == x { assert pool[x].id == id; }
    }
  }
}
