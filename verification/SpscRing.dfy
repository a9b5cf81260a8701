/**
 The lock-free ring between one producer and one consumer. Every atomic load and store, and every access to a slot,
 is a step of its own, and the steps of the two threads interleave in any way.
 */
module SpscRing {
  import opened Book
  import opened Bytes

  /** Where the producer is in `try_push`. */
  datatype Producer<T> =
    | AtRest
    | TailLoaded(v: T, tail: nat)
    | RoomSeen(v: T, tail: nat)
    | Written(v: T, tail: nat)

  /** Where the consumer is in `try_pop`. */
  datatype Consumer<T> =
    | Resting
    | HeadLoaded(head: nat)
    | ItemSeen(head: nat)
    | ItemRead(head: nat, v: T)

  /** The shared memory, the two threads, and the values pushed and popped so far. */
  datatype Ring<T> = Ring(head: nat, tail: nat, buf: seq<T>, prod: Producer<T>, cons: Consumer<T>, pushed: seq<T>,
      popped: seq<T>)

  /** One step of one thread; a producer at rest starts to push `v`. */
  datatype Move<T> = Produce(v: T) | Consume

  function After(i: nat, n: nat): nat {
    if i + 1 == n then 0 else i + 1
  }

  function ProducerStep<T>(r: Ring<T>, v: T): Ring<T> {
    match r.prod
    case AtRest => r.(prod := TailLoaded(v, r.tail))
    case TailLoaded(w, tail) => r.(prod := if After(tail, |r.buf|) == r.head then AtRest else RoomSeen(w, tail))
    case RoomSeen(w, tail) =>
      r.(prod := Written(w, tail), buf := if tail < |r.buf| then r.buf[tail := w] else r.buf)
    case Written(w, tail) => r.(prod := AtRest, tail := After(tail, |r.buf|), pushed := r.pushed + [w])
  }

  function ConsumerStep<T>(r: Ring<T>): Ring<T> {
    match r.cons
    case Resting => r.(cons := HeadLoaded(r.head))
    case HeadLoaded(head) => r.(cons := if head == r.tail then Resting else ItemSeen(head))
    case ItemSeen(head) => if head < |r.buf| then r.(cons := ItemRead(head, r.buf[head])) else r
    case ItemRead(head, v) => r.(cons := Resting, head := After(head, |r.buf|), popped := r.popped + [v])
  }

  function Step<T>(r: Ring<T>, m: Move<T>): Ring<T> {
    match m case Produce(v) => ProducerStep(r, v) case Consume => ConsumerStep(r)
  }

  function Fresh<T>(memory: seq<T>): Ring<T> {
    Ring(0, 0, memory, AtRest, Resting, [], [])
  }

  function Run<T>(memory: seq<T>, ms: seq<Move<T>>): Ring<T> {
    if ms == [] then Fresh(memory) else Step(Run(memory, ms[..|ms| - 1]), ms[|ms| - 1])
  }

  // ---------------------------------------------------------------- slots

  /** The slot of the `k`-th value. */
  function Slot(k: nat, n: nat): nat
    requires n > 0
  {
    k % n
  }

  lemma {:induction false} SlotAfter(k: nat, n: nat)
    requires n > 0
    ensures Slot(k, n) < n && Slot(k + 1, n) == After(Slot(k, n), n)
  {
    var q := k / n;
    assert k == q * n + k % n;
    if k % n + 1 == n {
      assert k + 1 == (q + 1) * n;
      ModUnique(k + 1, n, q + 1, 0);
    } else {
      ModUnique(k + 1, n, q, k % n + 1);
    }
  }

  lemma {:induction false} Multiples(d: int, n: nat)
    ensures if d <= 0 then d * n <= 0 else d * n >= n
  {
  }

  /** Two values at less than a full turn apart have different slots. */
  lemma {:induction false} SlotsDiffer(i: nat, j: nat, n: nat)
    requires n > 0 && i < j < i + n
    ensures Slot(i, n) != Slot(j, n)
  {
    var d := j / n - i / n;
    assert j - i == d * n + (j % n - i % n);
    Multiples(d, n);
  }

  // ---------------------------------------------------------------- the invariant

  ghost predicate Stored<T>(r: Ring<T>, k: nat)
    requires |r.buf| > 0
  {
    |r.popped| <= k < |r.pushed| ==> Slot(k, |r.buf|) < |r.buf| && r.buf[Slot(k, |r.buf|)] == r.pushed[k]
  }

  /** The values in the ring are in their slots, and the ring is never completely full. */
  ghost predicate Shared<T>(r: Ring<T>) {
    && |r.buf| > 0
    && r.popped <= r.pushed
    && |r.pushed| - |r.popped| < |r.buf|
    && r.head == Slot(|r.popped|, |r.buf|) && r.tail == Slot(|r.pushed|, |r.buf|)
    && (forall k :: Stored(r, k))
  }

  /** A producer that has seen room still has it, and what it has written is in its slot. */
  ghost predicate ProducerOk<T>(r: Ring<T>) {
    match r.prod
    case AtRest => true
    case TailLoaded(_, tail) => tail == r.tail
    case RoomSeen(_, tail) => tail == r.tail && |r.pushed| - |r.popped| + 1 < |r.buf|
    case Written(v, tail) =>
      tail == r.tail && |r.pushed| - |r.popped| + 1 < |r.buf| && tail < |r.buf| && r.buf[tail] == v
  }

  /** A consumer that has seen an item still has it, and what it has read is that item. */
  ghost predicate ConsumerOk<T>(r: Ring<T>) {
    match r.cons
    case Resting => true
    case HeadLoaded(head) => head == r.head
    case ItemSeen(head) => head == r.head && |r.popped| < |r.pushed|
    case ItemRead(head, v) => head == r.head && |r.popped| < |r.pushed| && v == r.pushed[|r.popped|]
  }

  ghost predicate Inv<T>(r: Ring<T>) {
    Shared(r) && ProducerOk(r) && ConsumerOk(r)
  }

  /** The number of values in the ring shows in the indices: a full ring is told from an empty one. */
  lemma {:induction false} Occupancy<T>(r: Ring<T>)
    requires Shared(r)
    ensures r.head < |r.buf| && r.tail < |r.buf|
    ensures r.head == r.tail <==> |r.popped| == |r.pushed|
    ensures After(r.tail, |r.buf|) == r.head <==> |r.pushed| - |r.popped| + 1 == |r.buf|
  {
    var n, i, j := |r.buf|, |r.popped|, |r.pushed|;
    SlotAfter(i, n);
    SlotAfter(j, n);
    if i < j { SlotsDiffer(i, j, n); }
    if j + 1 < i + n { SlotsDiffer(i, j + 1, n); } else { WholeTurn(i, n); }
    hide Slot;
  }

  lemma {:induction false} WholeTurn(i: nat, n: nat)
    requires n > 0
    ensures Slot(i + n, n) == Slot(i, n)
  {
    var q := i / n;
    assert i + n == (q + 1) * n + i % n;
    ModUnique(i + n, n, q + 1, i % n);
  }

  lemma {:induction false} WriteKeeps<T>(r: Ring<T>, v: T)
    requires Inv(r) && r.prod.RoomSeen?
    ensures Inv(ProducerStep(r, v))
  {
    Occupancy(r);
    var r' := ProducerStep(r, v);
    forall k: nat ensures Stored(r', k) {
      assert Stored(r, k);
      if |r.popped| <= k < |r.pushed| { SlotsDiffer(k, |r.pushed|, |r.buf|); }
    }
    if r.cons.ItemRead? { assert Stored(r, |r.popped|); }
    hide Slot;
  }

  lemma {:induction false} PublishKeeps<T>(r: Ring<T>, v: T)
    requires Inv(r) && r.prod.Written?
    ensures Inv(ProducerStep(r, v))
  {
    SlotAfter(|r.pushed|, |r.buf|);
    hide Slot;
    var r' := ProducerStep(r, v);
    forall k ensures Stored(r', k) { assert Stored(r, k); }
  }

  lemma {:induction false} ProducerKeeps<T>(r: Ring<T>, v: T)
    requires Inv(r)
    ensures Inv(ProducerStep(r, v))
  {
    match r.prod {
      case AtRest => StoredStays(r, ProducerStep(r, v));
      case TailLoaded(_, _) => Occupancy(r); StoredStays(r, ProducerStep(r, v));
      case RoomSeen(_, _) => WriteKeeps(r, v);
      case Written(_, _) => PublishKeeps(r, v);
    }
  }

  lemma {:induction false} StoredStays<T>(r: Ring<T>, r': Ring<T>)
    requires Shared(r) && r'.buf == r.buf && r'.pushed == r.pushed && r'.popped == r.popped && r'.head == r.head
      && r'.tail == r.tail
    ensures Shared(r')
  {
    hide Slot;
    forall k ensures Stored(r', k) { assert Stored(r, k); }
  }

  lemma {:induction false} RetireKeeps<T>(r: Ring<T>)
    requires Inv(r) && r.cons.ItemRead?
    ensures Inv(ConsumerStep(r))
  {
    SlotAfter(|r.popped|, |r.buf|);
    hide Slot;
    var r' := ConsumerStep(r);
    forall k ensures Stored(r', k) { assert Stored(r, k); }
  }

  lemma {:induction false} ConsumerKeeps<T>(r: Ring<T>)
    requires Inv(r)
    ensures Inv(ConsumerStep(r))
  {
    match r.cons {
      case Resting => StoredStays(r, ConsumerStep(r));
      case HeadLoaded(_) => Occupancy(r); StoredStays(r, ConsumerStep(r));
      case ItemSeen(_) =>
        Occupancy(r);
        assert Stored(r, |r.popped|);
        hide Slot;
        StoredStays(r, ConsumerStep(r));
      case ItemRead(_, _) => RetireKeeps(r);
    }
  }

  /** The invariant holds after every interleaving. */
  lemma {:induction false} RunKeeps<T>(memory: seq<T>, ms: seq<Move<T>>)
    requires |memory| > 0
    ensures Inv(Run(memory, ms)) && |Run(memory, ms).buf| == |memory|
  {
    if ms == [] {
      assert forall k :: Stored(Fresh(memory), k);
    } else {
      var before := ms[..|ms| - 1];
      RunKeeps(memory, before);
      var r := Run(memory, before);
      hide Inv;
      match ms[|ms| - 1] {
        case Produce(v) => ProducerKeeps(r, v);
        case Consume => ConsumerKeeps(r);
      }
    }
  }

  /**
   In every interleaving the popped values are a prefix of the pushed values, at most N - 1 values are in the ring,
   and the producer is never about to write the slot that the consumer is about to read.
   */
  lemma {:induction false} RingIsSafe<T>(memory: seq<T>, ms: seq<Move<T>>)
    requires |memory| > 0
    ensures var r := Run(memory, ms);
      && r.popped <= r.pushed
      && |r.pushed| - |r.popped| <= |memory| - 1
      && (r.prod.RoomSeen? && r.cons.ItemSeen? ==> r.prod.tail != r.cons.head)
  {
    RunKeeps(memory, ms);
    var r := Run(memory, ms);
    hide Run;
    Occupancy(r);
  }

  /** A push is refused only at a moment when N - 1 values are in the ring, and a pop only when there are none. */
  lemma {:induction false} RefusalsAreHonest<T>(memory: seq<T>, ms: seq<Move<T>>, v: T)
    requires |memory| > 0
    ensures var r := Run(memory, ms);
      && (r.prod.TailLoaded? ==> (ProducerStep(r, v).prod.AtRest? <==> |r.pushed| - |r.popped| == |memory| - 1))
      && (r.cons.HeadLoaded? ==> (ConsumerStep(r).cons.Resting? <==> r.popped == r.pushed))
  {
    RunKeeps(memory, ms);
    var r := Run(memory, ms);
    hide Run;
    Occupancy(r);
    assert |r.popped| == |r.pushed| ==> r.popped == r.pushed;
  }

  // ---------------------------------------------------------------- the ring as an object

  /** A push with no step of the consumer in between. */
  function PushAlone<T>(r: Ring<T>, v: T): Ring<T> {
    var seen := ProducerStep(ProducerStep(r, v), v);
    if seen.prod.AtRest? then seen else ProducerStep(ProducerStep(seen, v), v)
  }

  /** A pop with no step of the producer in between. */
  function PopAlone<T>(r: Ring<T>): Ring<T> {
    var seen := ConsumerStep(ConsumerStep(r));
    if seen.cons.Resting? then seen else ConsumerStep(ConsumerStep(seen))
  }

  lemma {:induction false} PushAloneIs<T>(r: Ring<T>, v: T)
    requires Inv(r) && r.prod.AtRest?
    ensures Inv(PushAlone(r, v))
    ensures After(r.tail, |r.buf|) == r.head ==> PushAlone(r, v) == r
    ensures After(r.tail, |r.buf|) != r.head ==>
      && r.tail < |r.buf|
      && PushAlone(r, v) == r.(tail := After(r.tail, |r.buf|), buf := r.buf[r.tail := v], pushed := r.pushed + [v])
  {
    Occupancy(r);
    var r1 := ProducerStep(r, v);
    var r2 := ProducerStep(r1, v);
    ProducerKeeps(r, v);
    ProducerKeeps(r1, v);
    if !r2.prod.AtRest? {
      ProducerKeeps(r2, v);
      ProducerKeeps(ProducerStep(r2, v), v);
    }
    hide Inv, Shared;
  }

  lemma {:induction false} PopAloneIs<T>(r: Ring<T>)
    requires Inv(r) && r.cons.Resting?
    ensures Inv(PopAlone(r))
    ensures r.head == r.tail ==> PopAlone(r) == r
    ensures r.head != r.tail ==>
      && r.head < |r.buf|
      && PopAlone(r) == r.(head := After(r.head, |r.buf|), popped := r.popped + [r.buf[r.head]])
  {
    Occupancy(r);
    var r1 := ConsumerStep(r);
    var r2 := ConsumerStep(r1);
    ConsumerKeeps(r);
    ConsumerKeeps(r1);
    if !r2.cons.Resting? {
      ConsumerKeeps(r2);
      ConsumerKeeps(ConsumerStep(r2));
    }
    hide Inv, Shared;
  }

  /** The ring with both threads at rest; each call is the thread's steps without interruption. */
  class SpscBuffer<T(0)> {
    const size: nat
    const buf: array<T>
    var head: nat
    var tail: nat
    ghost var pushed: seq<T>
    ghost var popped: seq<T>

    ghost function View(): Ring<T>
      reads this, buf
    {
      Ring(head, tail, buf[..], AtRest, Resting, pushed, popped)
    }

    ghost predicate Valid()
      reads this, buf
    {
      buf.Length == size && Inv(View())
    }

    constructor (n: nat)
      requires n > 0
      ensures Valid() && fresh(buf) && size == n && View() == Fresh(buf[..])
    {
      size := n;
      buf := new T[n];
      head, tail, pushed, popped := 0, 0, [], [];
      new;
      RunKeeps(buf[..], []);
    }

    method TryPush(v: T) returns (ok: bool)
      requires Valid()
      modifies this, buf
      ensures Valid() && View() == PushAlone(old(View()), v)
      ensures ok <==> |old(pushed)| - |old(popped)| < size - 1
      ensures pushed == (if ok then old(pushed) + [v] else old(pushed)) && popped == old(popped)
    {
      hide Inv, PushAlone;
      PushAloneIs(View(), v);
      ValidOccupancy(View());
      var next := After(tail, size);
      if next == head { return false; }
      ghost var was := buf[..];
      buf[tail] := v;
      assert buf[..] == was[tail := v];
      tail := next;
      pushed := pushed + [v];
      ok := true;
    }

    method TryPop() returns (r: Option<T>)
      requires Valid()
      modifies this
      ensures Valid() && View() == PopAlone(old(View()))
      ensures if old(popped) == old(pushed) then r.None? && popped == old(popped) else
        |old(popped)| < |old(pushed)| && r == Some(old(pushed)[|old(popped)|]) && popped == old(popped) + [r.value]
      ensures pushed == old(pushed)
    {
      hide Inv, PopAlone;
      PopAloneIs(View());
      ValidOccupancy(View());
      if head == tail { return None; }
      r := Some(buf[head]);
      popped := popped + [buf[head]];
      head := After(head, size);
    }
  }

  lemma {:induction false} ValidOccupancy<T>(r: Ring<T>)
    requires Inv(r)
    ensures |r.buf| > 0 && r.head < |r.buf| && r.tail < |r.buf| && r.popped <= r.pushed
    ensures r.head == r.tail <==> r.popped == r.pushed
    ensures r.head != r.tail ==> |r.popped| < |r.pushed| && r.buf[r.head] == r.pushed[|r.popped|]
    ensures After(r.tail, |r.buf|) == r.head <==> |r.pushed| - |r.popped| == |r.buf| - 1
    ensures |r.pushed| - |r.popped| <= |r.buf| - 1
  {
    Occupancy(r);
    assert |r.popped| == |r.pushed| ==> r.popped == r.pushed;
    assert Stored(r, |r.popped|);
    hide Slot, After;
  }
}
