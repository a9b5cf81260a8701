/** The log-linear latency histogram: its buckets, and how far a percentile can be off. */
module Histogram {

  const TWO64 := 0x1_0000_0000_0000_0000
  const BUCKETS := 1024

  function Pow2(k: nat): (p: nat)
    ensures p > 0
  {
    if k == 0 then 1 else 2 * Pow2(k - 1)
  }

  /** The position of the most significant bit. */
  function Msb(v: nat): nat {
    if v < 2 then 0 else 1 + Msb(v / 2)
  }

  function Steps(v: nat, p: nat): nat
    requires p > 0
  {
    v / p
  }

  /** Values below 16 have their own bucket; above, sixteen buckets share each power of two. */
  function Slot(v: nat): nat {
    if v < 16 then v
    else LargeMsb(v); (Msb(v) - 3) * 16 + Steps(v, Pow2(Msb(v) - 4)) % 16
  }

  /** The upper end of a bucket, in 64 bits. */
  function UpperBound(s: nat): nat {
    if s / 16 == 0 then s % 16 else (16 + s % 16 + 1) * Pow2(s / 16 - 1) % TWO64
  }

  // ---------------------------------------------------------------- powers of two

  lemma {:induction false} MsbBounds(v: nat)
    requires v > 0
    ensures Pow2(Msb(v)) <= v < 2 * Pow2(Msb(v))
  {
    if v >= 2 { MsbBounds(v / 2); }
  }

  lemma {:induction false} PowersGrow(i: nat, j: nat)
    requires i <= j
    ensures Pow2(i) <= Pow2(j) && (i < j ==> 2 * Pow2(i) <= Pow2(j))
  {
    if i < j { PowersGrow(i, j - 1); }
  }

  lemma {:induction false} PowersAdd(i: nat, j: nat)
    ensures Pow2(i + j) == Pow2(i) * Pow2(j)
  {
    if j > 0 {
      PowersAdd(i, j - 1);
      assert Pow2(i + j) == 2 * Pow2(i + (j - 1));
      assert Pow2(i) * (2 * Pow2(j - 1)) == 2 * (Pow2(i) * Pow2(j - 1));
    }
  }

  lemma {:induction false} FourMore(k: nat)
    ensures Pow2(k + 4) == 16 * Pow2(k)
  {
    assert Pow2(k + 4) == 2 * Pow2(k + 3) && Pow2(k + 3) == 2 * Pow2(k + 2) && Pow2(k + 2) == 2 * Pow2(k + 1);
  }

  lemma {:induction false} SmallPowers()
    ensures Pow2(4) == 16 && Pow2(59) == 0x800_0000_0000_0000 && Pow2(64) == TWO64
  {
    assert Pow2(2) == 4 && Pow2(4) == 4 * Pow2(2) && Pow2(5) == 2 * Pow2(4);
    hide Pow2;
    PowersAdd(4, 4);
    PowersAdd(8, 8);
    PowersAdd(16, 16);
    PowersAdd(32, 32);
    PowersAdd(59, 5);
    assert Pow2(8) == 0x100 && Pow2(16) == 0x1_0000 && Pow2(32) == 0x1_0000_0000;
  }

  lemma {:induction false} ProductMonotone(a: nat, b: nat, p: nat)
    ensures a >= b ==> a * p >= b * p
  {
  }

  lemma {:induction false} Quotient(v: nat, p: nat)
    requires p > 0 && 16 * p <= v < 32 * p
    ensures 16 <= Steps(v, p) < 32 && Steps(v, p) * p <= v < (Steps(v, p) + 1) * p
  {
    var q, rest := Steps(v, p), v % p;
    assert v == q * p + rest && rest < p;
    hide Steps;
    assert (q + 1) * p == q * p + p;
    ProductMonotone(16, q + 1, p);
    ProductMonotone(q, 32, p);
  }

  // ---------------------------------------------------------------- buckets

  /** The shift of a large value's bucket. */
  function Shift(v: nat): nat
    requires v >= 16
  {
    LargeMsb(v); Msb(v) - 4
  }

  lemma {:induction false} Parts(k: nat, q: nat)
    requires 16 <= q < 32
    ensures q % 16 == q - 16
    ensures var s := (k + 1) * 16 + q % 16; s == 16 * k + q && s / 16 == k + 1 && s % 16 == q - 16
  {
  }

  lemma {:induction false} LargeMsb(v: nat)
    requires v >= 16
    ensures Msb(v) >= 4
  {
    assert Msb(v) == 1 + Msb(v / 2) && Msb(v / 2) == 1 + Msb(v / 2 / 2);
    assert Msb(v / 2 / 2) == 1 + Msb(v / 2 / 2 / 2) && Msb(v / 2 / 2 / 2) >= 1;
  }

  /** A large value lies in a bucket of width `2^shift`, the `q`-th one. */
  lemma {:induction false} LargeSlot(v: nat)
    requires v >= 16
    ensures var p := Pow2(Shift(v)); var q := Steps(v, p);
      && Msb(v) >= 4 && 16 <= q < 32 && q * p <= v < (q + 1) * p
      && Slot(v) == 16 * Shift(v) + q && Slot(v) / 16 == Shift(v) + 1 && Slot(v) % 16 == q - 16
  {
    LargeMsb(v);
    var k, p := Shift(v), Pow2(Shift(v));
    assert Msb(v) == k + 4 && Slot(v) == (k + 1) * 16 + Steps(v, p) % 16;
    hide *;
    MsbBounds(v);
    FourMore(k);
    Quotient(v, p);
    Parts(k, Steps(v, p));
  }

  lemma {:induction false} ShiftBound(v: nat)
    requires 16 <= v < TWO64
    ensures Shift(v) <= 59
  {
    LargeSlot(v);
    MsbBounds(v);
    SmallPowers();
    if Msb(v) >= 64 { PowersGrow(64, Msb(v)); }
  }

  /** Every 64-bit value has a bucket. */
  lemma {:induction false} SlotInRange(v: nat)
    requires v < TWO64
    ensures Slot(v) < BUCKETS
  {
    if v >= 16 {
      LargeSlot(v);
      ShiftBound(v);
    }
  }

  lemma {:induction false} MsbMonotone(v: nat, w: nat)
    requires v <= w
    ensures Msb(v) <= Msb(w)
  {
    if v >= 2 { MsbMonotone(v / 2, w / 2); }
  }

  lemma {:induction false} DivMonotone(v: nat, w: nat, p: nat)
    requires v <= w && p > 0
    ensures Steps(v, p) <= Steps(w, p)
  {
    var q, r := v / p, w / p;
    assert v == q * p + v % p && w == r * p + w % p;
    assert (r + 1) * p == r * p + p;
    assert q >= r + 1 ==> q * p >= (r + 1) * p by { ProductMonotone(q, r + 1, p); }
  }

  /** Larger values are never in smaller buckets. */
  lemma {:induction false} SlotMonotone(v: nat, w: nat)
    requires v <= w
    ensures Slot(v) <= Slot(w)
  {
    if w >= 16 {
      LargeSlot(w);
      if v < 16 {
        assert Slot(v) == v;
      } else {
        LargeSlot(v);
        MsbMonotone(v, w);
        assert Shift(v) <= Shift(w);
        hide Pow2, Msb, Slot, Shift, Steps;
        if Shift(v) == Shift(w) { DivMonotone(v, w, Pow2(Shift(v))); }
      }
    }
  }

  /** The first value whose bucket ends beyond 64 bits. */
  const WRAPS := 31 * 0x800_0000_0000_0000

  lemma {:induction false} LargeUpper(v: nat)
    requires 16 <= v < TWO64
    ensures var p := Pow2(Shift(v)); var u := (Steps(v, p) + 1) * p;
      UpperBound(Slot(v)) == (if v < WRAPS then u else 0) && v < u && 16 * (u - v) <= v
  {
    LargeSlot(v);
    ShiftBound(v);
    SmallPowers();
    PowersGrow(Shift(v), 59);
    if Shift(v) < 59 { PowersGrow(Shift(v), 58); }
    var p := Pow2(Shift(v));
    var q := Steps(v, p);
    assert Pow2(59) == 2 * Pow2(58);
    assert 16 + Slot(v) % 16 + 1 == q + 1;
    hide Pow2, Msb, Slot, Steps;
    UpperFits(v, p, q);
    Cut64((q + 1) * p);
  }

  lemma {:induction false} Cut64(u: nat)
    requires u <= TWO64
    ensures u % TWO64 == if u < TWO64 then u else 0
  {
  }

  lemma {:induction false} UpperFits(v: nat, p: nat, q: nat)
    requires 16 <= q < 32 && q * p <= v < (q + 1) * p
    requires p == 0x800_0000_0000_0000 || 0 < p <= 0x400_0000_0000_0000
    ensures var u := (q + 1) * p; 16 * (u - v) <= v && (u < TWO64 <==> v < WRAPS) && u <= TWO64
  {
    assert (q + 1) * p == q * p + p;
    assert q * p >= 16 * p;
    assert q < 31 ==> (q + 1) * p <= 31 * p;
    assert q == 31 ==> q * p == 31 * p;
    assert (q + 1) * p <= 32 * p;
  }

  /** A bucket's upper end bounds its values from above, by at most a sixteenth, exactly below 31 * 2^59. */
  lemma {:induction false} BoundIsClose(v: nat)
    requires v < TWO64
    ensures v <= UpperBound(Slot(v)) && 16 * (UpperBound(Slot(v)) - v) <= v <==> v < WRAPS
  {
    if v >= 16 {
      LargeUpper(v);
      hide UpperBound, Slot, Pow2, Shift, Steps;
    }
  }

  // ---------------------------------------------------------------- ranks

  function CountBelow(vs: seq<nat>, w: nat): nat {
    if vs == [] then 0 else CountBelow(vs[..|vs| - 1], w) + if vs[|vs| - 1] < w then 1 else 0
  }

  /** The values whose bucket is below `i`. */
  function SlotsBelow(vs: seq<nat>, i: nat): (n: nat)
    ensures n <= |vs|
  {
    if vs == [] then 0 else SlotsBelow(vs[..|vs| - 1], i) + if Slot(vs[|vs| - 1]) < i then 1 else 0
  }

  function InSlot(vs: seq<nat>, i: nat): nat {
    if vs == [] then 0 else InSlot(vs[..|vs| - 1], i) + if Slot(vs[|vs| - 1]) == i then 1 else 0
  }

  /** `w` is the `rank`-th smallest of the values. */
  predicate IsRank(vs: seq<nat>, rank: nat, w: nat) {
    w in vs && CountBelow(vs, w) < rank <= CountBelow(vs, w + 1)
  }

  lemma {:induction false} NextSlot(vs: seq<nat>, i: nat)
    ensures SlotsBelow(vs, i + 1) == SlotsBelow(vs, i) + InSlot(vs, i)
  {
    hide Slot;
    if vs != [] { NextSlot(vs[..|vs| - 1], i); }
  }

  lemma {:induction false} SlotsGrow(vs: seq<nat>, i: nat, j: nat)
    requires i <= j
    ensures SlotsBelow(vs, i) <= SlotsBelow(vs, j)
  {
    hide Slot;
    if vs != [] { SlotsGrow(vs[..|vs| - 1], i, j); }
  }

  /** Buckets keep the order of the values. */
  lemma {:induction false} SlotsSplit(vs: seq<nat>, w: nat)
    ensures SlotsBelow(vs, Slot(w)) <= CountBelow(vs, w) && CountBelow(vs, w + 1) <= SlotsBelow(vs, Slot(w) + 1)
  {
    if vs != [] {
      var v := vs[|vs| - 1];
      SlotsSplit(vs[..|vs| - 1], w);
      if v <= w { SlotMonotone(v, w); }
      if w <= v { SlotMonotone(w, v); }
      hide Slot;
    }
  }

  lemma {:induction false} MemberInSlot(vs: seq<nat>, w: nat)
    requires w in vs
    ensures InSlot(vs, Slot(w)) > 0
  {
    hide Slot;
    if vs[|vs| - 1] != w { MemberInSlot(vs[..|vs| - 1], w); }
  }

  lemma {:induction false} AllCounted(vs: seq<nat>)
    requires forall v | v in vs :: v < TWO64
    ensures SlotsBelow(vs, BUCKETS) == |vs|
  {
    if vs != [] {
      var n := |vs| - 1;
      assert forall v | v in vs[..n] :: v in vs;
      assert vs[n] in vs;
      AllCounted(vs[..n]);
      SlotInRange(vs[n]);
      hide Slot;
    }
  }

  /** Some value has every rank from one to the number of values. */
  lemma {:induction false} RankExists(vs: seq<nat>, rank: nat, limit: nat) returns (w: nat)
    requires 1 <= rank <= CountBelow(vs, limit)
    ensures IsRank(vs, rank, w)
    decreases limit
  {
    if limit == 0 { NoneBelowZero(vs); }
    if rank <= CountBelow(vs, limit - 1) {
      w := RankExists(vs, rank, limit - 1);
    } else {
      w := limit - 1;
      NewAt(vs, w);
    }
  }

  /** For 64-bit values these are the ranks from one to the number of values. */
  lemma {:induction false} EveryRank(vs: seq<nat>, rank: nat) returns (w: nat)
    requires 1 <= rank <= |vs| && forall v | v in vs :: v < TWO64
    ensures IsRank(vs, rank, w)
  {
    AllBelow(vs);
    w := RankExists(vs, rank, TWO64);
  }

  lemma {:induction false} AllBelow(vs: seq<nat>)
    requires forall v | v in vs :: v < TWO64
    ensures CountBelow(vs, TWO64) == |vs|
  {
    if vs != [] {
      var n := |vs| - 1;
      assert vs[n] in vs && forall v | v in vs[..n] :: v in vs;
      AllBelow(vs[..n]);
    }
  }

  lemma {:induction false} NoneBelowZero(vs: seq<nat>)
    ensures CountBelow(vs, 0) == 0
  {
    if vs != [] { NoneBelowZero(vs[..|vs| - 1]); }
  }

  lemma {:induction false} NewAt(vs: seq<nat>, w: nat)
    ensures w !in vs ==> CountBelow(vs, w + 1) == CountBelow(vs, w)
  {
    if vs != [] { NewAt(vs[..|vs| - 1], w); }
  }

  // ---------------------------------------------------------------- the histogram

  class LatencyHistogram {
    const buckets: array<nat>
    var count: nat
    var max: nat
    var min: nat
    ghost var recorded: seq<nat>

    ghost predicate Valid()
      reads this, buckets
    {
      && buckets.Length == BUCKETS
      && count == |recorded|
      && (forall v | v in recorded :: min <= v <= max && v < TWO64)
      && (recorded == [] ==> max == 0)
      && (recorded != [] ==> max in recorded && min in recorded)
      && forall i | 0 <= i < BUCKETS :: buckets[i] == InSlot(recorded, i)
    }

    constructor ()
      ensures Valid() && fresh(buckets) && recorded == []
    {
      buckets := new nat[BUCKETS](_ => 0);
      count, max, min, recorded := 0, 0, 0, [];
    }

    method Record(ns: nat)
      requires Valid() && ns < TWO64
      modifies this, buckets
      ensures Valid() && recorded == old(recorded) + [ns]
    {
      SlotInRange(ns);
      hide Slot;
      ghost var all := recorded + [ns];
      assert all[..|recorded|] == recorded;
      buckets[Slot(ns)] := buckets[Slot(ns)] + 1;
      count := count + 1;
      if ns > max { max := ns; }
      if ns < min || count == 1 { min := ns; }
      recorded := all;
    }

    /** The bucket scan for a rank, which the caller computes from a percentage. */
    method AtRank(rank: nat) returns (u: nat)
      requires Valid()
      ensures count == 0 ==> u == 0
      ensures rank > count > 0 ==> u == max
      ensures 1 <= rank <= count ==> exists w :: IsRank(recorded, rank, w)
      ensures forall w | IsRank(recorded, rank, w) :: u == UpperBound(Slot(w))
      ensures (forall v | v in recorded :: v < WRAPS) ==>
        forall w: nat | IsRank(recorded, rank, w) :: w <= u && 16 * (u - w) <= w
    {
      hide Slot, UpperBound, InSlot, SlotsBelow;
      if count == 0 { return 0; }
      if 1 <= rank <= count { var w := EveryRank(recorded, rank); }
      var seen, i := 0, 0;
      NothingBelow(recorded);
      AllCounted(recorded);
      while i < BUCKETS
        invariant i <= BUCKETS && seen == SlotsBelow(recorded, i)
          && (i > 0 ==> (seen < rank || SlotsBelow(recorded, i) == 0))
      {
        NextSlot(recorded, i);
        seen := seen + buckets[i];
        if seen >= rank && buckets[i] > 0 {
          u := UpperBound(i);
          forall w | IsRank(recorded, rank, w) ensures Slot(w) == i { StopsAt(recorded, rank, w, i); }
          if forall v | v in recorded :: v < WRAPS {
            forall w: nat | IsRank(recorded, rank, w) ensures w <= u && 16 * (u - w) <= w {
              RankIsClose(recorded, rank, w);
            }
          }
          SlotsGrow(recorded, i + 1, BUCKETS);
          return;
        }
        i := i + 1;
      }
      u := max;
      forall w | IsRank(recorded, rank, w) ensures false { RankIsCounted(recorded, rank, w); }
    }
  }

  lemma {:induction false} NothingBelow(vs: seq<nat>)
    ensures SlotsBelow(vs, 0) == 0
  {
    hide Slot;
    if vs != [] { NothingBelow(vs[..|vs| - 1]); }
  }

  /** The scan stops in the bucket of the value it looks for. */
  lemma {:induction false} StopsAt(vs: seq<nat>, rank: nat, w: nat, i: nat)
    requires IsRank(vs, rank, w) && (SlotsBelow(vs, i) < rank || SlotsBelow(vs, i) == 0)
      && SlotsBelow(vs, i + 1) >= rank
    ensures Slot(w) == i
  {
    hide Slot, SlotsBelow, CountBelow;
    SlotsSplit(vs, w);
    if Slot(w) < i { SlotsGrow(vs, Slot(w) + 1, i); } else if i < Slot(w) { SlotsGrow(vs, i + 1, Slot(w)); }
  }

  lemma {:induction false} RankIsCounted(vs: seq<nat>, rank: nat, w: nat)
    requires IsRank(vs, rank, w) && forall v | v in vs :: v < TWO64
    ensures 1 <= rank <= |vs| && Slot(w) < BUCKETS && InSlot(vs, Slot(w)) > 0
  {
    SlotInRange(w);
    MemberInSlot(vs, w);
    hide Slot;
    CountIsBounded(vs, w + 1);
  }

  lemma {:induction false} CountIsBounded(vs: seq<nat>, w: nat)
    ensures CountBelow(vs, w) <= |vs|
  {
    if vs != [] { CountIsBounded(vs[..|vs| - 1], w); }
  }

  /**
   For every rank from one to the number of recorded values below 31 * 2^59: the scan's answer is at least the value of
   that rank and exceeds it by at most a sixteenth.
   */
  lemma {:induction false} RankIsClose(vs: seq<nat>, rank: nat, w: nat)
    requires IsRank(vs, rank, w) && forall v | v in vs :: v < WRAPS
    ensures w <= UpperBound(Slot(w)) && 16 * (UpperBound(Slot(w)) - w) <= w
  {
    BoundIsClose(w);
  }
}
