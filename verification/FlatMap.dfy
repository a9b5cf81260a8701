/**
 The open-addressing index: linear probing, backward-shift deletion, growth at 70% load.

 `pos` says where each key lives. `Probing` is the property that makes lookups right without tombstones:
 between a key's home slot and the slot it lives in, every slot is in use.
 */
module Flat {

  datatype Slot = Slot(key: nat, val: int, used: bool)

  const UNUSED := Slot(0, 0, false)

  predicate PowerOfTwo(n: nat) {
    n == 1 || (n > 0 && n % 2 == 0 && PowerOfTwo(n / 2))
  }

  /** Fibonacci hashing on 64 bits. The capacity is a power of two, so masking is the remainder. */
  function Home(key: nat, n: nat): (h: nat)
    requires n > 0
    ensures h < n
  {
    key * 11400714819323198485 % 0x1_0000_0000_0000_0000 / 0x1_0000_0000 % n
  }

  function Next(i: nat, n: nat): nat {
    if i + 1 == n then 0 else i + 1
  }

  /** `k` lies on the cyclic way from `h` to `j`, `j` itself excluded. */
  predicate Between(h: int, k: int, j: int) {
    if h <= j then h <= k < j else h <= k || k < j
  }

  /** Steps from `i` to `u`, going round. */
  function Dist(i: nat, u: nat, n: nat): nat
    requires i < n && u < n
  {
    if i <= u then u - i else u - i + n
  }

  /** Every key is found at its place, and nowhere else. */
  ghost predicate Placed(t: seq<Slot>, pos: map<nat, nat>) {
    && (forall k | k in pos :: pos[k] < |t| && t[pos[k]].used && t[pos[k]].key == k)
    && (forall s | 0 <= s < |t| && t[s].used :: t[s].key in pos && pos[t[s].key] == s)
  }

  ghost predicate Probing(t: seq<Slot>) {
    forall s, k | 0 <= s < |t| && 0 <= k < |t| && t[s].used && Between(Home(t[s].key, |t|), k, s) :: t[k].used
  }

  ghost predicate Holds(t: seq<Slot>, pos: map<nat, nat>, contents: map<nat, int>) {
    && pos.Keys == contents.Keys
    && Placed(t, pos)
    && forall k | k in pos :: t[pos[k]].val == contents[k]
  }

  // ---------------------------------------------------------------- there is always an unused slot

  lemma {:induction false} CountKeys(t: seq<Slot>, pos: map<nat, nat>, i: nat)
    requires Placed(t, pos) && i <= |t| && forall s | 0 <= s < |t| :: t[s].used
    ensures |set s | 0 <= s < i :: t[s].key| == i
    ensures (set s | 0 <= s < i :: t[s].key) <= pos.Keys
  {
    if i > 0 {
      CountKeys(t, pos, i - 1);
      var before := set s | 0 <= s < i - 1 :: t[s].key;
      assert (set s | 0 <= s < i :: t[s].key) == before + {t[i - 1].key};
      assert t[i - 1].key !in before;
    }
  }

  lemma {:induction false} SubsetSize(a: set<nat>, b: set<nat>)
    requires a <= b
    ensures |a| <= |b|
  {
    assert b == a + (b - a);
  }

  lemma {:induction false} SmallerByOne(m: map<nat, int>, key: nat)
    requires key in m
    ensures |m - {key}| == |m| - 1
  {
    assert m.Keys == (m - {key}).Keys + {key};
    assert |m| == |m.Keys| && |m - {key}| == |(m - {key}).Keys|;
  }

  lemma {:induction false} SomeUnused(t: seq<Slot>, pos: map<nat, nat>) returns (u: nat)
    requires Placed(t, pos) && |pos| < |t|
    ensures u < |t| && !t[u].used
  {
    assert |pos.Keys| == |pos|;
    if forall s | 0 <= s < |t| :: t[s].used {
      CountKeys(t, pos, |t|);
      SubsetSize(set s | 0 <= s < |t| :: t[s].key, pos.Keys);
      assert false;
    }
    u :| u < |t| && !t[u].used;
  }

  // ---------------------------------------------------------------- probing

  /** Probing for `key` has come to `i` through used slots that hold other keys, and has not passed `u`. */
  ghost predicate Probed(t: seq<Slot>, key: nat, i: nat, u: nat) {
    && i < |t| && u < |t| && !t[u].used
    && !Between(Home(key, |t|), u, i)
    && forall k | 0 <= k < |t| && Between(Home(key, |t|), k, i) :: t[k].used && t[k].key != key
  }

  lemma {:induction false} ProbeStarts(t: seq<Slot>, key: nat, u: nat)
    requires u < |t| && !t[u].used
    ensures Probed(t, key, Home(key, |t|), u)
  {
    hide Home;
  }

  lemma {:induction false} ProbeOn(t: seq<Slot>, key: nat, i: nat, u: nat)
    requires Probed(t, key, i, u) && t[i].used && t[i].key != key
    ensures Probed(t, key, Next(i, |t|), u)
    ensures Dist(Next(i, |t|), u, |t|) < Dist(i, u, |t|)
  {
    hide Home;
  }

  /** Probing that meets an unused slot proves the key absent. */
  lemma {:induction false} ProbeFails(t: seq<Slot>, pos: map<nat, nat>, key: nat, i: nat)
    requires Placed(t, pos) && Probing(t) && Probed(t, key, i, i)
    ensures key !in pos
  {
    hide Home;
    if key in pos {
      assert false;
    }
  }

  lemma {:induction false} PlaceNew(t: seq<Slot>, pos: map<nat, nat>, contents: map<nat, int>, key: nat, val: int,
      i: nat)
    requires Holds(t, pos, contents) && Probing(t) && Probed(t, key, i, i)
    ensures key !in contents
    ensures Holds(t[i := Slot(key, val, true)], pos[key := i], contents[key := val])
    ensures Probing(t[i := Slot(key, val, true)])
  {
    hide Home;
    ProbeFails(t, pos, key, i);
    var t' := t[i := Slot(key, val, true)];
    forall s, k | 0 <= s < |t'| && 0 <= k < |t'| && t'[s].used
      && Between(Home(t'[s].key, |t'|), k, s) ensures t'[k].used {
    }
  }

  lemma {:induction false} PlaceOver(t: seq<Slot>, pos: map<nat, nat>, contents: map<nat, int>, key: nat, val: int,
      i: nat)
    requires Holds(t, pos, contents) && Probing(t) && i < |t| && t[i].used && t[i].key == key
    ensures Holds(t[i := t[i].(val := val)], pos, contents[key := val]) && Probing(t[i := t[i].(val := val)])
    ensures |contents[key := val]| == |contents|
  {
    hide Home;
    assert contents[key := val].Keys == contents.Keys;
    assert |contents[key := val]| == |contents[key := val].Keys| && |contents| == |contents.Keys|;
  }

  // ---------------------------------------------------------------- growth

  lemma {:induction false} EmptyTable(t: seq<Slot>)
    requires forall s | 0 <= s < |t| :: !t[s].used
    ensures Holds(t, map[], map[]) && Probing(t)
  {
    hide Home;
  }

  lemma {:induction false} CopyNone(t: seq<Slot>, pos: map<nat, nat>, contents: map<nat, int>)
    requires Holds(t, pos, contents)
    ensures Copied(t, pos, contents, map[], 0)
  {
  }

  /** The entries of the first `i` slots, and nothing else, are in the copy. */
  ghost predicate Copied(t: seq<Slot>, pos: map<nat, nat>, contents: map<nat, int>, copy: map<nat, int>, i: nat) {
    && Holds(t, pos, contents)
    && (forall k | k in copy :: k in contents && copy[k] == contents[k] && pos[k] < i)
    && (forall k | k in contents && pos[k] < i :: k in copy)
  }

  lemma {:induction false} CopyOne(t: seq<Slot>, pos: map<nat, nat>, contents: map<nat, int>, copy: map<nat, int>,
      i: nat)
    requires Copied(t, pos, contents, copy, i) && i < |t|
    ensures Copied(t, pos, contents, if t[i].used then copy[t[i].key := t[i].val] else copy, i + 1)
    ensures t[i].used ==> t[i].key !in copy && |copy| < |contents|
  {
    if t[i].used {
      var key := t[i].key;
      assert pos[key] == i;
      assert copy.Keys <= contents.Keys;
      OneMore(copy, contents, key, t[i].val);
    } else {
      forall k | k in contents ensures pos[k] != i { assert t[pos[k]].used; }
    }
  }

  lemma {:induction false} OneMore(copy: map<nat, int>, contents: map<nat, int>, key: nat, val: int)
    requires copy.Keys <= contents.Keys && key in contents && key !in copy
    ensures |copy[key := val]| == |copy| + 1 <= |contents|
  {
    SubsetSize(copy.Keys + {key}, contents.Keys);
    assert |copy| == |copy.Keys| && |contents| == |contents.Keys|;
  }

  lemma {:induction false} CopiedAll(t: seq<Slot>, pos: map<nat, nat>, contents: map<nat, int>, copy: map<nat, int>)
    requires Copied(t, pos, contents, copy, |t|)
    ensures copy == contents
  {
  }

  // ---------------------------------------------------------------- backward-shift deletion

  ghost predicate Keeps(t: seq<Slot>, pos: map<nat, nat>, contents: map<nat, int>) {
    && pos.Keys == contents.Keys
    && forall k | k in pos :: pos[k] < |t| && t[pos[k]].val == contents[k]
  }

  /**
   The table with a hole: `t[hole]` is a stale entry that is about to go. The way from the hole to `j` is in use;
   a key's way to its slot may lead through the hole only if its slot lies beyond `j`.
   */
  ghost predicate Shifting(t: seq<Slot>, pos: map<nat, nat>, hole: nat, j: nat, u: nat) {
    && hole < |t| && j < |t| && u < |t| && t[hole].used && !t[u].used
    && (forall k | k in pos :: pos[k] < |t| && pos[k] != hole && t[pos[k]].used && t[pos[k]].key == k)
    && (forall s | 0 <= s < |t| && t[s].used && s != hole :: t[s].key in pos && pos[t[s].key] == s)
    && (forall k | 0 <= k < |t| && (Between(hole, k, j) || k == j) :: t[k].used)
    && (forall s, k | 0 <= s < |t| && 0 <= k < |t| && t[s].used && s != hole
      && Between(Home(t[s].key, |t|), k, s) :: t[k].used)
    && (forall s | 0 <= s < |t| && t[s].used && s != hole && (Between(hole, s, j) || s == j) ::
          !Between(Home(t[s].key, |t|), hole, s))
  }

  lemma {:induction false} ShiftStarts(t: seq<Slot>, pos: map<nat, nat>, i: nat, u: nat)
    requires Placed(t, pos) && Probing(t) && i < |t| && t[i].used && u < |t| && !t[u].used
    ensures Shifting(t, pos - {t[i].key}, i, i, u)
  {
    hide Home;
  }

  lemma {:induction false} ShiftOn(t: seq<Slot>, pos: map<nat, nat>, hole: nat, j: nat, u: nat)
    requires Shifting(t, pos, hole, j, u) && t[Next(j, |t|)].used
    ensures Next(j, |t|) != hole && Dist(Next(j, |t|), u, |t|) < Dist(j, u, |t|)
  {
    hide Home;
    if Next(j, |t|) == hole { assert false; }
  }

  lemma {:induction false} ShiftSkip(t: seq<Slot>, pos: map<nat, nat>, hole: nat, j: nat, u: nat)
    requires Shifting(t, pos, hole, j, u) && t[Next(j, |t|)].used
    requires !Between(Home(t[Next(j, |t|)].key, |t|), hole, Next(j, |t|))
    ensures Shifting(t, pos, hole, Next(j, |t|), u)
  {
    hide Home;
    ShiftOn(t, pos, hole, j, u);
  }

  lemma {:induction false} ShiftMoveKeeps(t: seq<Slot>, pos: map<nat, nat>, contents: map<nat, int>, hole: nat, j: nat,
      u: nat)
    requires Shifting(t, pos, hole, j, u) && t[Next(j, |t|)].used && Keeps(t, pos, contents)
    ensures Keeps(t[hole := t[Next(j, |t|)]], pos[t[Next(j, |t|)].key := hole], contents)
  {
    hide Home;
    ShiftOn(t, pos, hole, j, u);
  }

  lemma {:induction false} ShiftMove(t: seq<Slot>, pos: map<nat, nat>, hole: nat, j: nat, u: nat)
    requires Shifting(t, pos, hole, j, u) && t[Next(j, |t|)].used
    requires Between(Home(t[Next(j, |t|)].key, |t|), hole, Next(j, |t|))
    ensures Shifting(t[hole := t[Next(j, |t|)]], pos[t[Next(j, |t|)].key := hole], Next(j, |t|), Next(j, |t|), u)
  {
    hide Home;
    ShiftOn(t, pos, hole, j, u);
    var j' := Next(j, |t|);
    var t', pos' := t[hole := t[j']], pos[t[j'].key := hole];
    assert forall k | 0 <= k < |t| :: t'[k].used == t[k].used;
    forall s, k | 0 <= s < |t'| && 0 <= k < |t'| && t'[s].used && s != j' && Between(Home(t'[s].key, |t'|), k, s)
      ensures t'[k].used
    {
      if s == hole { assert t'[s] == t[j'] && Between(Home(t[j'].key, |t|), k, j'); } else { assert t'[s] == t[s]; }
    }
  }

  ghost predicate Erasing(t: seq<Slot>, pos: map<nat, nat>, contents: map<nat, int>, hole: nat, j: nat, u: nat) {
    Shifting(t, pos, hole, j, u) && Keeps(t, pos, contents)
  }

  lemma {:induction false} StartErase(t: seq<Slot>, pos: map<nat, nat>, contents: map<nat, int>, i: nat, u: nat)
    requires Holds(t, pos, contents) && Probing(t) && i < |t| && t[i].used && u < |t| && !t[u].used
    ensures Erasing(t, pos - {t[i].key}, contents - {t[i].key}, i, i, u)
    ensures Next(i, |t|) < |t|
  {
    hide Home;
    ShiftStarts(t, pos, i, u);
  }

  lemma {:induction false} EraseOne(t: seq<Slot>, pos: map<nat, nat>, contents: map<nat, int>, hole: nat, j: nat,
      u: nat)
    requires Erasing(t, pos, contents, hole, j, u) && j < |t| && u < |t| && Next(j, |t|) < |t| && t[Next(j, |t|)].used
    ensures var j', n := Next(j, |t|), |t|; var home := Home(t[j'].key, n);
      && Next(j', n) < n && Dist(j', u, n) < Dist(j, u, n)
      && if (if hole <= j' then home <= hole || home > j' else home <= hole && home > j')
         then hole < n && Erasing(t[hole := t[j']], pos[t[j'].key := hole], contents, j', j', u)
         else Erasing(t, pos, contents, hole, j', u)
  {
    hide Home;
    ShiftOn(t, pos, hole, j, u);
    var j' := Next(j, |t|);
    if Between(Home(t[j'].key, |t|), hole, j') {
      ShiftMove(t, pos, hole, j, u);
      ShiftMoveKeeps(t, pos, contents, hole, j, u);
    } else {
      ShiftSkip(t, pos, hole, j, u);
    }
  }

  lemma {:induction false} EndErase(t: seq<Slot>, pos: map<nat, nat>, contents: map<nat, int>, hole: nat, j: nat,
      u: nat)
    requires Erasing(t, pos, contents, hole, j, u) && Next(j, |t|) < |t| && !t[Next(j, |t|)].used
    ensures hole < |t| && var t' := t[hole := t[hole].(used := false)]; Holds(t', pos, contents) && Probing(t')
  {
    hide Home, Probing;
    ShiftEnds(t, pos, hole, j, u);
  }

  /** The next slot is unused: nothing beyond it depends on the hole, which can be emptied. */
  lemma {:induction false} ShiftEnds(t: seq<Slot>, pos: map<nat, nat>, hole: nat, j: nat, u: nat)
    requires Shifting(t, pos, hole, j, u) && !t[Next(j, |t|)].used
    ensures Placed(t[hole := t[hole].(used := false)], pos) && Probing(t[hole := t[hole].(used := false)])
  {
    hide Home;
    var t' := t[hole := t[hole].(used := false)];
    forall s, k | 0 <= s < |t'| && 0 <= k < |t'| && t'[s].used
      && Between(Home(t'[s].key, |t'|), k, s) ensures t'[k].used {
      assert t'[s] == t[s] && t[k].used;
      var h, n := Home(t[s].key, |t|), Next(j, |t|);
      assert Between(hole, s, j) || s == j || !Between(h, hole, s) || Between(h, n, s);
    }
  }

  class FlatMap {
    var slots: seq<Slot>
    var size: nat
    ghost var pos: map<nat, nat>
    /** The map this table stands for. */
    ghost var contents: map<nat, int>

    /** Under 70% load on a power-of-two capacity, with every key reachable from its home slot. */
    ghost predicate Valid()
      reads this
    {
      && |slots| >= 16 && PowerOfTwo(|slots|)
      && size == |contents| && size * 10 <= |slots| * 7
      && Holds(slots, pos, contents) && Probing(slots)
    }

    constructor (expected: nat)
      ensures Valid() && contents == map[]
      ensures expected * 10 <= |slots| * 7
    {
      var cap := 16;
      assert PowerOfTwo(2) && PowerOfTwo(8);
      while cap * 7 < expected * 10
        invariant cap >= 16 && PowerOfTwo(cap)
        decreases expected * 10 - cap * 7
      {
        cap := cap * 2;
      }
      slots := seq(cap, _ => UNUSED);
      size, pos, contents := 0, map[], map[];
    }

    /** Follows the key from its home slot to where it is, or to the unused slot that shows it is not there. */
    method Probe(key: nat) returns (i: nat)
      requires Valid()
      ensures i < |slots|
      ensures if slots[i].used then slots[i].key == key else Probed(slots, key, i, i)
    {
      hide Home, PowerOfTwo;
      ghost var t := slots;
      ghost var u := SomeSpace();
      i := Home(key, |slots|);
      ProbeStarts(t, key, u);
      while slots[i].used && slots[i].key != key
        invariant Probed(t, key, i, u)
        decreases Dist(i, u, |t|)
      {
        ProbeOn(t, key, i, u);
        i := Next(i, |slots|);
      }
    }

    method FindSlot(key: nat) returns (i: nat, found: bool)
      requires Valid()
      ensures found == (key in contents)
      ensures found ==> i < |slots| && slots[i].used && slots[i].key == key && slots[i].val == contents[key]
    {
      hide Home, PowerOfTwo;
      i := Probe(key);
      found := slots[i].used;
      if !found { ProbeFails(slots, pos, key, i); }
    }

    lemma {:induction false} SomeSpace() returns (u: nat)
      requires Valid()
      ensures u < |slots| && !slots[u].used
    {
      hide Home, PowerOfTwo, Probing;
      assert |pos| == |pos.Keys| && |contents| == |contents.Keys|;
      u := SomeUnused(slots, pos);
    }

    method Contains(key: nat) returns (found: bool)
      requires Valid()
      ensures found == (key in contents)
    {
      var _, f := FindSlot(key);
      found := f;
    }

    /** The value of a key that is present. */
    method Find(key: nat) returns (found: bool, val: int)
      requires Valid()
      ensures found == (key in contents)
      ensures found ==> val == contents[key]
    {
      var i, f := FindSlot(key);
      found, val := f, if f then slots[i].val else 0;
    }

    /** Inserts or overwrites. Growing makes room for all the insertions it makes itself. */
    method Insert(key: nat, val: int)
      requires Valid()
      modifies this
      ensures Valid() && contents == old(contents)[key := val]
      ensures (old(size) + 1) * 10 <= old(|slots|) * 7 ==> |slots| == old(|slots|)
      decreases if (size + 1) * 10 > |slots| * 7 then 2 else 0
    {
      hide Home, PowerOfTwo, Holds, Probing, Probed;
      if (size + 1) * 10 > |slots| * 7 { Grow(); }
      var i := Probe(key);
      if !slots[i].used {
        PlaceNew(slots, pos, contents, key, val, i);
        slots := slots[i := Slot(key, val, true)];
        size := size + 1;
        pos := pos[key := i];
      } else {
        PlaceOver(slots, pos, contents, key, val, i);
        slots := slots[i := slots[i].(val := val)];
      }
      contents := contents[key := val];
    }

    method Grow()
      requires Valid()
      modifies this
      ensures Valid() && contents == old(contents) && |slots| == 2 * old(|slots|)
      decreases 1
    {
      hide Home, PowerOfTwo, Holds, Probing, Copied;
      var before := slots;
      ghost var pos0, contents0 := pos, contents;
      slots := seq(2 * |before|, _ => UNUSED);
      size := 0;
      pos, contents := map[], map[];
      EmptyTable(slots);
      Doubled(|before|);
      CopyNone(before, pos0, contents0);
      var i := 0;
      while i < |before|
        invariant i <= |before| && |slots| == 2 * |before|
        invariant Valid() && Copied(before, pos0, contents0, contents, i)
      {
        CopyOne(before, pos0, contents0, contents, i);
        if before[i].used {
          Room(|contents0|);
          Insert(before[i].key, before[i].val);
        }
        i := i + 1;
      }
      CopiedAll(before, pos0, contents0, contents);
    }

    lemma {:induction false} Doubled(n: nat)
      requires PowerOfTwo(n)
      ensures PowerOfTwo(2 * n)
    {
    }

    lemma {:induction false} Room(n: nat)
      requires Valid() && |contents| < n && n * 20 <= |slots| * 7
      ensures (size + 1) * 10 <= |slots| * 7
    {
    }

    method Erase(key: nat) returns (erased: bool)
      requires Valid()
      modifies this
      ensures Valid() && |slots| == old(|slots|)
      ensures erased == (key in old(contents))
      ensures contents == old(contents) - {key}
    {
      hide Home, PowerOfTwo, Holds, Probing, Erasing, Next, Dist;
      var i, found := FindSlot(key);
      if !found { return false; }
      ghost var u := SomeSpace();
      StartErase(slots, pos, contents, i, u);
      SmallerByOne(contents, key);
      pos, contents := pos - {key}, contents - {key};
      var hole: nat, j: nat := i, i;
      while slots[Next(j, |slots|)].used
        invariant |slots| == old(|slots|) && size == old(size) && contents == old(contents) - {key}
        invariant hole < |slots| && Next(j, |slots|) < |slots| && j < |slots| && u < |slots|
        invariant Erasing(slots, pos, contents, hole, j, u)
        decreases Dist(j, u, |slots|)
      {
        EraseOne(slots, pos, contents, hole, j, u);
        j := Next(j, |slots|);
        var home := Home(slots[j].key, |slots|);
        var movable := if hole <= j then home <= hole || home > j else home <= hole && home > j;
        if movable {
          pos := pos[slots[j].key := hole];
          slots := slots[hole := slots[j]];
          hole := j;
        }
      }
      EndErase(slots, pos, contents, hole, j, u);
      slots := slots[hole := slots[hole].(used := false)];
      size := size - 1;
      return true;
    }
  }
}
