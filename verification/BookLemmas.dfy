/** How the list operations of `Book` act on order, identity, single prices and totals. */
module BookLemmas {
  import opened Book

  // ---------------------------------------------------------------- lookup by id

  lemma {:induction false} GetIsMember(l: seq<Order>, id: nat)
    ensures Get(l, id).Some? ==> Get(l, id).value in l && Get(l, id).value.id == id
  {
    if l != [] { GetIsMember(l[1..], id); }
  }

  lemma {:induction false} MemberIsFound(l: seq<Order>, o: Order)
    requires UniqueIds(l) && o in l
    ensures Get(l, o.id) == Some(o)
  {
    if l[0] != o {
      assert o in l[1..];
      MemberIsFound(l[1..], o);
      if l[0].id == o.id { assert false; }
    }
  }

  lemma {:induction false} GetAfterInsert(l: seq<Order>, o: Order, id: nat)
    requires Get(l, o.id).None?
    ensures Get(Insert(l, o), id) == if id == o.id then Some(o) else Get(l, id)
  {
    if l == [] || Better(o.side, o.price, l[0].price) {
      assert ([o] + l)[1..] == l;
    } else {
      assert ([l[0]] + Insert(l[1..], o))[1..] == Insert(l[1..], o);
      GetAfterInsert(l[1..], o, id);
    }
  }

  lemma {:induction false} GetAfterRemove(l: seq<Order>, x: nat, id: nat)
    requires UniqueIds(l)
    ensures Get(Remove(l, x), id) == if id == x then None else Get(l, id)
  {
    if l != [] && l[0].id != x {
      assert ([l[0]] + Remove(l[1..], x))[1..] == Remove(l[1..], x);
      GetAfterRemove(l[1..], x, id);
    }
  }

  lemma {:induction false} GetAfterSetOpen(l: seq<Order>, x: nat, open: nat, id: nat)
    ensures Get(SetOpen(l, x, open), id)
         == if id == x && Get(l, id).Some? then Some(Get(l, id).value.(open := open)) else Get(l, id)
  {
    if l != [] {
      assert ([l[0].(open := open)] + l[1..])[1..] == l[1..];
      assert ([l[0]] + SetOpen(l[1..], x, open))[1..] == SetOpen(l[1..], x, open);
      GetAfterSetOpen(l[1..], x, open, id);
    }
  }

  // ---------------------------------------------------------------- order and identity are kept

  lemma {:induction false} InsertKeeps(l: seq<Order>, o: Order)
    requires Sorted(l, o.side) && UniqueIds(l) && Get(l, o.id).None? && o.open > 0 && o.price > 0
    ensures Sorted(Insert(l, o), o.side) && UniqueIds(Insert(l, o))
  {
    if l == [] || Better(o.side, o.price, l[0].price) {
      assert ([o] + l)[1..] == l;
    } else {
      assert ([l[0]] + Insert(l[1..], o))[1..] == Insert(l[1..], o);
      InsertKeeps(l[1..], o);
      GetAfterInsert(l[1..], o, l[0].id);
    }
  }

  lemma {:induction false} SortedHead(l: seq<Order>, side: Side, o: Order)
    requires Sorted(l, side) && o in l
    ensures o.side == side && o.open > 0 && o.price > 0 && !Better(side, o.price, l[0].price)
  {
    if o != l[0] {
      assert o in l[1..];
      SortedHead(l[1..], side, o);
    }
  }

  lemma {:induction false} RemoveKeeps(l: seq<Order>, side: Side, id: nat)
    requires Sorted(l, side) && UniqueIds(l)
    ensures Sorted(Remove(l, id), side) && UniqueIds(Remove(l, id))
    ensures Remove(l, id) != [] ==> l != [] && !Better(side, Remove(l, id)[0].price, l[0].price)
  {
    if l != [] && l[0].id != id {
      assert ([l[0]] + Remove(l[1..], id))[1..] == Remove(l[1..], id);
      RemoveKeeps(l[1..], side, id);
      GetAfterRemove(l[1..], id, l[0].id);
      if |l| > 1 && Remove(l[1..], id) != [] {
        assert !Better(side, Remove(l[1..], id)[0].price, l[1].price);
      }
    }
  }

  lemma {:induction false} SetOpenKeeps(l: seq<Order>, side: Side, id: nat, open: nat)
    requires Sorted(l, side) && UniqueIds(l) && open > 0
    ensures Sorted(SetOpen(l, id, open), side) && UniqueIds(SetOpen(l, id, open))
    ensures |SetOpen(l, id, open)| == |l|
    ensures l != [] ==> SetOpen(l, id, open)[0].price == l[0].price
  {
    if l != [] {
      assert ([l[0].(open := open)] + l[1..])[1..] == l[1..];
      assert ([l[0]] + SetOpen(l[1..], id, open))[1..] == SetOpen(l[1..], id, open);
      SetOpenKeeps(l[1..], side, id, open);
      GetAfterSetOpen(l[1..], id, open, l[0].id);
    }
  }

  // ---------------------------------------------------------------- single prices

  lemma {:induction false} NothingBeyondBest(l: seq<Order>, side: Side, p: int)
    requires Sorted(l, side) && (l != [] ==> Better(side, p, l[0].price))
    ensures AtPrice(l, p) == []
  {
    if l != [] { NothingBeyondBest(l[1..], side, p); }
  }

  lemma {:induction false} AtPriceAfterInsert(l: seq<Order>, o: Order, p: int)
    requires Sorted(l, o.side)
    ensures AtPrice(Insert(l, o), p) == if p == o.price then AtPrice(l, p) + [o] else AtPrice(l, p)
  {
    if l == [] || Better(o.side, o.price, l[0].price) {
      assert ([o] + l)[1..] == l;
      NothingBeyondBest(l, o.side, o.price);
    } else {
      assert ([l[0]] + Insert(l[1..], o))[1..] == Insert(l[1..], o);
      AtPriceAfterInsert(l[1..], o, p);
    }
  }

  lemma {:induction false} AbsentAtPrice(l: seq<Order>, id: nat, p: int, open: nat)
    requires Get(l, id).None?
    ensures Get(AtPrice(l, p), id).None?
    ensures Remove(l, id) == l && SetOpen(l, id, open) == l
  {
    if l != [] {
      AbsentAtPrice(l[1..], id, p, open);
      assert ([l[0]] + AtPrice(l[1..], p))[1..] == AtPrice(l[1..], p);
    }
  }

  lemma {:induction false} AtPriceAfterRemove(l: seq<Order>, id: nat, p: int)
    requires UniqueIds(l)
    ensures AtPrice(Remove(l, id), p) == Remove(AtPrice(l, p), id)
  {
    if l != [] {
      assert ([l[0]] + AtPrice(l[1..], p))[1..] == AtPrice(l[1..], p);
      if l[0].id == id {
        AbsentAtPrice(l[1..], id, p, 0);
        AbsentAtPrice(AtPrice(l[1..], p), id, p, 0);
      } else {
        assert ([l[0]] + Remove(l[1..], id))[1..] == Remove(l[1..], id);
        AtPriceAfterRemove(l[1..], id, p);
      }
    }
  }

  lemma {:induction false} AtPriceAfterSetOpen(l: seq<Order>, id: nat, open: nat, p: int)
    requires UniqueIds(l)
    ensures AtPrice(SetOpen(l, id, open), p) == SetOpen(AtPrice(l, p), id, open)
  {
    if l != [] {
      assert ([l[0]] + AtPrice(l[1..], p))[1..] == AtPrice(l[1..], p);
      if l[0].id == id {
        assert ([l[0].(open := open)] + l[1..])[1..] == l[1..];
        AbsentAtPrice(l[1..], id, p, open);
        AbsentAtPrice(AtPrice(l[1..], p), id, p, open);
      } else {
        assert ([l[0]] + SetOpen(l[1..], id, open))[1..] == SetOpen(l[1..], id, open);
        AtPriceAfterSetOpen(l[1..], id, open, p);
      }
    }
  }

  /** An order is found in the queue of its own price, and only there. */
  lemma {:induction false} GetAtPrice(l: seq<Order>, id: nat, p: int)
    requires UniqueIds(l)
    ensures Get(AtPrice(l, p), id)
         == if Get(l, id).Some? && Get(l, id).value.price == p then Get(l, id) else None
  {
    if l != [] {
      assert ([l[0]] + AtPrice(l[1..], p))[1..] == AtPrice(l[1..], p);
      GetAtPrice(l[1..], id, p);
      if l[0].id == id { AbsentAtPrice(l[1..], id, p, 0); }
    }
  }

  lemma {:induction false} AtPriceKeeps(l: seq<Order>, side: Side, p: int)
    requires Sorted(l, side) && UniqueIds(l)
    ensures Sorted(AtPrice(l, p), side) && UniqueIds(AtPrice(l, p))
    ensures forall o | o in AtPrice(l, p) :: o.price == p && o in l
  {
    if l != [] {
      assert ([l[0]] + AtPrice(l[1..], p))[1..] == AtPrice(l[1..], p);
      AtPriceKeeps(l[1..], side, p);
      GetAtPrice(l[1..], l[0].id, p);
    }
  }

  // ---------------------------------------------------------------- totals

  lemma {:induction false} TotalAppend(q: seq<Order>, o: Order)
    ensures Total(q + [o]) == Total(q) + o.open
  {
    if q == [] { assert q + [o] == [o]; } else { assert (q + [o])[1..] == q[1..] + [o]; TotalAppend(q[1..], o); }
  }

  lemma {:induction false} TotalAfterInsert(l: seq<Order>, o: Order)
    ensures Total(Insert(l, o)) == Total(l) + o.open
  {
    if l == [] || Better(o.side, o.price, l[0].price) {
      assert ([o] + l)[1..] == l;
    } else {
      assert ([l[0]] + Insert(l[1..], o))[1..] == Insert(l[1..], o);
      TotalAfterInsert(l[1..], o);
    }
  }

  lemma {:induction false} TotalAfterRemove(l: seq<Order>, id: nat)
    requires Get(l, id).Some?
    ensures Total(Remove(l, id)) == Total(l) - Get(l, id).value.open
  {
    if l[0].id != id {
      assert ([l[0]] + Remove(l[1..], id))[1..] == Remove(l[1..], id);
      TotalAfterRemove(l[1..], id);
    }
  }

  lemma {:induction false} TotalAfterSetOpen(l: seq<Order>, id: nat, open: nat)
    requires Get(l, id).Some?
    ensures Total(SetOpen(l, id, open)) == Total(l) - Get(l, id).value.open + open
  {
    if l[0].id == id {
      assert ([l[0].(open := open)] + l[1..])[1..] == l[1..];
    } else {
      assert ([l[0]] + SetOpen(l[1..], id, open))[1..] == SetOpen(l[1..], id, open);
      TotalAfterSetOpen(l[1..], id, open);
    }
  }
}
