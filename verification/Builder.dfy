/** The client-side book: what it keeps, and what each message does to it. */
module Builder {
  import opened Book
  import opened Snapshots
  import opened EngineSpec
  import opened Itch
  import Bytes
  import Mold

  datatype Entry = Entry(symbol: Symbol, side: Side, price: int, qty: nat)

  /** Order references by price, first in first. */
  datatype SymbolBook = SymbolBook(bids: map<int, seq<nat>>, asks: map<int, seq<nat>>) {
    function On(side: Side): map<int, seq<nat>> {
      if side.Buy? then bids else asks
    }

    function With(side: Side, m: map<int, seq<nat>>): SymbolBook {
      if side.Buy? then this.(bids := m) else this.(asks := m)
    }
  }

  datatype Books = Books(orders: map<nat, Entry>, books: map<Symbol, SymbolBook>)

  const NOTHING := Books(map[], map[])
  const NO_BOOK := SymbolBook(map[], map[])

  function BookAt(b: Books, symbol: Symbol): SymbolBook {
    if symbol in b.books then b.books[symbol] else NO_BOOK
  }

  function QueueOf(m: map<int, seq<nat>>, price: int): seq<nat> {
    if price in m then m[price] else []
  }

  function Without(refs: seq<nat>, ref: nat): seq<nat> {
    if refs == [] then [] else if refs[0] == ref then Without(refs[1..], ref) else [refs[0]] + Without(refs[1..], ref)
  }

  /** An empty queue is not kept. */
  function PutQueue(m: map<int, seq<nat>>, price: int, refs: seq<nat>): map<int, seq<nat>> {
    if refs == [] then m - {price} else m[price := refs]
  }

  function AddRef(b: Books, ref: nat, symbol: Symbol, side: Side, price: int, shares: nat): Books {
    var book := BookAt(b, symbol);
    var m := book.On(side);
    Books(b.orders[ref := Entry(symbol, side, price, shares)],
          b.books[symbol := book.With(side, m[price := QueueOf(m, price) + [ref]])])
  }

  function RemoveRef(b: Books, ref: nat): Books {
    if ref !in b.orders then b
    else
      var o := b.orders[ref];
      var book := BookAt(b, o.symbol);
      var m := book.On(o.side);
      var m' := if o.price in m then PutQueue(m, o.price, Without(m[o.price], ref)) else m;
      Books(b.orders - {ref}, b.books[o.symbol := book.With(o.side, m')])
  }

  function ReduceRef(b: Books, ref: nat, less: nat): Books {
    if ref !in b.orders then b
    else if less >= b.orders[ref].qty then RemoveRef(b, ref)
    else b.(orders := b.orders[ref := b.orders[ref].(qty := b.orders[ref].qty - less)])
  }

  function Receive(b: Books, m: ItchMessage): Books {
    match m
    case AddOrder(ref, side, shares, stock, price) => AddRef(b, ref, stock, side, price, shares)
    case OrderExecuted(ref, shares, _) => ReduceRef(b, ref, shares)
    case OrderCancel(ref, shares) => ReduceRef(b, ref, shares)
    case OrderDelete(ref) => RemoveRef(b, ref)
    case OrderReplace(original, newRef, shares, price) =>
      if original !in b.orders then b
      else
        var o := b.orders[original];
        AddRef(RemoveRef(b, original), newRef, o.symbol, o.side, price, shares)
    case AddOrderMpid(ref, side, shares, stock, price, _) => AddRef(b, ref, stock, side, price, shares)
    case OrderExecutedWithPrice(ref, shares, _, _, _) => ReduceRef(b, ref, shares)
    case Notice(_) => b
  }

  function ReceiveAll(b: Books, ms: seq<ItchMessage>): Books {
    if ms == [] then b else Receive(ReceiveAll(b, ms[..|ms| - 1]), ms[|ms| - 1])
  }

  lemma {:induction false} ReceiveSplit(b: Books, ms: seq<ItchMessage>, more: seq<ItchMessage>)
    ensures ReceiveAll(b, ms + more) == ReceiveAll(ReceiveAll(b, ms), more)
  {
    hide Receive;
    if more == [] {
      assert ms + more == ms;
    } else {
      assert (ms + more)[..|ms + more| - 1] == ms + more[..|more| - 1];
      ReceiveSplit(b, ms, more[..|more| - 1]);
    }
  }

  /** The message without what no book depends on, if anything is left of it. */
  function Plain(m: ItchMessage): seq<ItchMessage> {
    if m.AddOrderMpid? then [ItchMessage.AddOrder(m.ref, m.side, m.shares, m.stock, m.price)]
    else if m.OrderExecutedWithPrice? then [ItchMessage.OrderCancel(m.ref, m.shares)]
    else if m.OrderExecuted? then [ItchMessage.OrderCancel(m.ref, m.shares)]
    else if m.Notice? then []
    else [m]
  }

  function PlainAll(ms: seq<ItchMessage>): seq<ItchMessage> {
    if ms == [] then [] else PlainAll(ms[..|ms| - 1]) + Plain(ms[|ms| - 1])
  }

  /**
   Attributed orders count as orders, executions at any price as executions, executions as lost shares, and notices not
   at all.
   */
  lemma {:induction false} PlainIsEnough(b: Books, ms: seq<ItchMessage>)
    ensures ReceiveAll(b, PlainAll(ms)) == ReceiveAll(b, ms)
  {
    hide Receive, Plain;
    if ms != [] {
      var before, m := ms[..|ms| - 1], ms[|ms| - 1];
      PlainIsEnough(b, before);
      ReceiveSplit(b, PlainAll(before), Plain(m));
      PlainStep(ReceiveAll(b, before), m);
    }
  }

  lemma {:induction false} PlainStep(b: Books, m: ItchMessage)
    ensures ReceiveAll(b, Plain(m)) == Receive(b, m)
  {
    hide AddRef, RemoveRef, ReduceRef;
    if Plain(m) != [] { assert Plain(m)[..0] == [] && ReceiveAll(b, Plain(m)[..0]) == b; }
  }

  /** The client decodes a message and applies it; it drops what it cannot decode. */
  function Hear(b: Books, bs: seq<Bytes.Byte>): Books {
    var f := Decode(bs);
    if f.None? then b else Receive(b, f.value.msg)
  }

  function HearAll(b: Books, ms: seq<seq<Bytes.Byte>>): Books {
    if ms == [] then b else Hear(HearAll(b, ms[..|ms| - 1]), ms[|ms| - 1])
  }

  /** Every reference of the queues belongs to a known order. */
  predicate Known(b: Books, m: map<int, seq<nat>>) {
    forall p, r | p in m && r in m[p] :: r in b.orders
  }

  function ShownRefs(b: Books, refs: seq<nat>): seq<SnapshotOrder>
    requires forall r | r in refs :: r in b.orders
  {
    if refs == [] then [] else [SnapshotOrder(refs[0], b.orders[refs[0]].qty)] + ShownRefs(b, refs[1..])
  }

  function ShownLevels(b: Books, m: map<int, seq<nat>>, ps: seq<int>): seq<SnapshotLevel>
    requires Known(b, m)
  {
    if ps == [] then [] else [SnapshotLevel(ps[0], ShownRefs(b, QueueOf(m, ps[0])))] + ShownLevels(b, m, ps[1..])
  }

  /** A queued reference without an order makes the look-up throw. */
  function SnapshotOf(b: Books, symbol: Symbol): Option<BookSnapshot> {
    var book := BookAt(b, symbol);
    if !Known(b, book.bids) || !Known(b, book.asks) then None
    else Some(BookSnapshot(ShownLevels(b, book.bids, BestFirst(Buy, book.bids.Keys)),
                           ShownLevels(b, book.asks, BestFirst(Sell, book.asks.Keys))))
  }

  /** The books together with the gap detector. */
  datatype Listener = Listener(books: Books, gaps: Mold.Gaps)

  /** A datagram that does not parse is dropped without a trace. */
  function HearPacket(l: Listener, bs: seq<Bytes.Byte>): Listener {
    var d := Mold.Parse(bs);
    if d.None? then l
    else
      var p := d.value.packet;
      Listener(HearAll(l.books, p.msgs), Mold.AfterPacket(l.gaps, p.seqNo, |p.msgs|))
  }

  // ---------------------------------------------------------------- the class

  class ItchBookBuilder {
    var orders: map<nat, Entry>
    var books: map<Symbol, SymbolBook>
    const gaps: Mold.GapDetector

    function State(): Books
      reads this
    {
      Books(orders, books)
    }

    function View(): Listener
      reads this, gaps
    {
      Listener(State(), gaps.State())
    }

    constructor ()
      ensures View() == Listener(NOTHING, Mold.Gaps(1, false)) && fresh(gaps)
    {
      orders, books := map[], map[];
      gaps := new Mold.GapDetector();
    }

    method AddOrder(ref: nat, symbol: Symbol, side: Side, price: int, shares: nat)
      modifies this
      ensures State() == AddRef(old(State()), ref, symbol, side, price, shares)
    {
      orders := orders[ref := Entry(symbol, side, price, shares)];
      var book := BookAt(State(), symbol);
      if side == Buy {
        book := book.(bids := book.bids[price := QueueOf(book.bids, price) + [ref]]);
      } else {
        book := book.(asks := book.asks[price := QueueOf(book.asks, price) + [ref]]);
      }
      books := books[symbol := book];
    }

    method ReduceOrder(ref: nat, less: nat)
      modifies this
      ensures State() == ReduceRef(old(State()), ref, less)
    {
      if ref !in orders { return; }
      if less >= orders[ref].qty {
        RemoveOrder(ref);
      } else {
        orders := orders[ref := orders[ref].(qty := orders[ref].qty - less)];
      }
    }

    method RemoveOrder(ref: nat)
      modifies this
      ensures State() == RemoveRef(old(State()), ref)
    {
      if ref !in orders { return; }
      var o := orders[ref];
      var book := BookAt(State(), o.symbol);
      var m := book.On(o.side);
      if o.price in m {
        var refs := Without(m[o.price], ref);
        if refs == [] { m := m - {o.price}; } else { m := m[o.price := refs]; }
      }
      books := books[o.symbol := book.With(o.side, m)];
      orders := orders - {ref};
    }

    method OnMessage(m: ItchMessage)
      modifies this
      ensures State() == Receive(old(State()), m)
    {
      hide AddRef, RemoveRef, ReduceRef;
      match m {
        case AddOrder(ref, side, shares, stock, price) => AddOrder(ref, stock, side, price, shares);
        case OrderExecuted(ref, shares, _) => ReduceOrder(ref, shares);
        case OrderCancel(ref, shares) => ReduceOrder(ref, shares);
        case OrderDelete(ref) => RemoveOrder(ref);
        case OrderReplace(original, newRef, shares, price) =>
          if original in orders {
            var o := orders[original];
            RemoveOrder(original);
            AddOrder(newRef, o.symbol, o.side, price, shares);
          }
        case AddOrderMpid(ref, side, shares, stock, price, _) => AddOrder(ref, stock, side, price, shares);
        case OrderExecutedWithPrice(ref, shares, _, _, _) => ReduceOrder(ref, shares);
        case Notice(_) =>
      }
    }

    /** Applies the messages of a packet; says whether the packet ends the session. */
    method OnMoldPacket(bs: seq<Bytes.Byte>) returns (ended: bool)
      modifies this, gaps
      ensures View() == HearPacket(old(View()), bs)
      ensures ended <==> Mold.Parse(bs).Some? && Mold.Parse(bs).value.packet.ended
    {
      hide Receive, Decode, Mold.Parse, Mold.AfterPacket;
      var pkt := Mold.ParsePacket(bs);
      if pkt.None? { return false; }
      var p := pkt.value.packet;
      var gap := gaps.OnPacket(p.seqNo, |p.msgs|);
      ghost var g := gaps.State();
      var i := 0;
      while i < |p.msgs|
        modifies this
        invariant i <= |p.msgs| && gaps.State() == g && State() == HearAll(old(State()), p.msgs[..i])
      {
        assert p.msgs[..i + 1][..i] == p.msgs[..i];
        var f := Decode(p.msgs[i]);
        if f.Some? { OnMessage(f.value.msg); }
        i := i + 1;
      }
      assert p.msgs[..i] == p.msgs;
      ended := p.ended;
    }

    method QueueSnapshot(refs: seq<nat>) returns (shown: seq<SnapshotOrder>)
      requires forall r | r in refs :: r in orders
      ensures shown == ShownRefs(State(), refs)
    {
      shown := [];
      assert refs[0..] == refs;
      var j := 0;
      while j < |refs|
        invariant j <= |refs| && ShownRefs(State(), refs) == shown + ShownRefs(State(), refs[j..])
      {
        assert refs[j..][1..] == refs[j + 1..];
        shown := shown + [SnapshotOrder(refs[j], orders[refs[j]].qty)];
        j := j + 1;
      }
    }

    /** One side of a snapshot, best price first; the map is walked as an ordered map. */
    method SideSnapshot(m: map<int, seq<nat>>, side: Side) returns (levels: seq<SnapshotLevel>)
      requires Known(State(), m)
      ensures levels == ShownLevels(State(), m, BestFirst(side, m.Keys))
    {
      hide BestFirst, ShownRefs;
      var ps := BestFirst(side, m.Keys);
      levels := [];
      assert ps[0..] == ps;
      var i := 0;
      while i < |ps|
        invariant i <= |ps| && ShownLevels(State(), m, ps) == levels + ShownLevels(State(), m, ps[i..])
      {
        assert ps[i..][1..] == ps[i + 1..];
        var shown := QueueSnapshot(QueueOf(m, ps[i]));
        levels := levels + [SnapshotLevel(ps[i], shown)];
        i := i + 1;
      }
    }

    method Snapshot(symbol: Symbol) returns (snap: Option<BookSnapshot>)
      ensures snap == SnapshotOf(State(), symbol)
    {
      hide BestFirst, ShownLevels;
      var book := BookAt(State(), symbol);
      if !Known(State(), book.bids) || !Known(State(), book.asks) { return None; }
      var b := SideSnapshot(book.bids, Buy);
      var a := SideSnapshot(book.asks, Sell);
      snap := Some(BookSnapshot(b, a));
    }
  }
}
