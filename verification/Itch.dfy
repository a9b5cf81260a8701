/** The ITCH messages that a client decodes: which of them change a book, and the byte layout of those that do. */
module Itch {
  import opened Book
  import opened EngineSpec
  import Bytes

  datatype Header = Header(locate: nat, tracking: nat, timestamp: nat)

  datatype ItchMessage =
    | AddOrder(ref: nat, side: Side, shares: nat, stock: Symbol, price: nat)
    | OrderExecuted(ref: nat, shares: nat, matchNumber: nat)
    | OrderCancel(ref: nat, shares: nat)
    | OrderDelete(ref: nat)
    | OrderReplace(original: nat, newRef: nat, shares: nat, price: nat)
    | AddOrderMpid(ref: nat, side: Side, shares: nat, stock: Symbol, price: nat, attribution: seq<Bytes.Byte>)
    | OrderExecutedWithPrice(ref: nat, shares: nat, matchNumber: nat, printable: nat, price: nat)
      /** A system event, stock directory entry, trading action or trade: no order changes. */
    | Notice(kind: nat)

  datatype Framed = Framed(header: Header, msg: ItchMessage)

  /** The message types 'A', 'E', 'X', 'D', 'U', 'F' and 'C', or the type of a notice. */
  function TypeCode(m: ItchMessage): nat {
    match m
    case AddOrder(_, _, _, _, _) => 65
    case OrderExecuted(_, _, _) => 69
    case OrderCancel(_, _) => 88
    case OrderDelete(_) => 68
    case OrderReplace(_, _, _, _) => 85
    case AddOrderMpid(_, _, _, _, _, _) => 70
    case OrderExecutedWithPrice(_, _, _, _, _) => 67
    case Notice(kind) => kind
  }

  const BOOK_TYPES: set<nat> := {65, 69, 88, 68, 85, 70, 67}

  /** The sizes of the message types 'S', 'R', 'H' and 'P', and zero for every other type. */
  function NoticeSize(t: nat): nat {
    if t == 83 then 12 else if t == 82 then 39 else if t == 72 then 25 else if t == 80 then 44 else 0
  }

  const HEADER: seq<nat> := [1, 2, 2, 6]

  /** Field widths after the header. */
  function Body(t: nat): seq<nat> {
    if t == 65 then [8, 1, 4, 1, 1, 1, 1, 1, 1, 1, 1, 4]
    else if t == 69 then [8, 4, 8]
    else if t == 88 then [8, 4]
    else if t == 68 then [8]
    else if t == 70 then [8, 1, 4, 1, 1, 1, 1, 1, 1, 1, 1, 4, 1, 1, 1, 1]
    else if t == 67 then [8, 4, 8, 1, 4]
    else [8, 8, 4, 4]
  }

  function Layout(t: nat): seq<nat> {
    HEADER + Body(t)
  }

  function SideByte(side: Side): nat {
    if side.Buy? then 66 else 83
  }

  /** The fields of a message, in wire order. */
  function Values(f: Framed): seq<nat> {
    var h := f.header;
    [TypeCode(f.msg), h.locate, h.tracking, h.timestamp] +
    match f.msg
    case AddOrder(ref, side, shares, stock, price) => [ref, SideByte(side), shares] + stock + [price]
    case OrderExecuted(ref, shares, matchNumber) => [ref, shares, matchNumber]
    case OrderCancel(ref, shares) => [ref, shares]
    case OrderDelete(ref) => [ref]
    case OrderReplace(original, newRef, shares, price) => [original, newRef, shares, price]
    case AddOrderMpid(ref, side, shares, stock, price, attribution) =>
      [ref, SideByte(side), shares] + stock + [price] + attribution
    case OrderExecutedWithPrice(ref, shares, matchNumber, printable, price) =>
      [ref, shares, matchNumber, printable, price]
    case Notice(_) => []
  }

  /** The message changes a book, and its texts have the width of their fields. */
  predicate Encodable(m: ItchMessage) {
    && !m.Notice?
    && (m.AddOrder? || m.AddOrderMpid? ==> WireSymbol(m.stock))
    && (m.AddOrderMpid? ==> |m.attribution| == 4)
  }

  function Encode(f: Framed): (bs: seq<Bytes.Byte>)
    requires Encodable(f.msg)
    ensures |bs| == Bytes.Width(Layout(TypeCode(f.msg)))
  {
    Bytes.PutAll(Values(f), Layout(TypeCode(f.msg)))
  }

  /** The message with these fields. Every side byte but 'B' means a sell order. */
  function Build(t: nat, v: seq<nat>): Framed
    requires |v| == |Layout(t)|
  {
    Framed(Header(v[1], v[2], v[3]),
      if t == 65 then AddOrder(v[4], if v[5] == 66 then Buy else Sell, v[6], Chars(v[7..15]), v[15])
      else if t == 69 then OrderExecuted(v[4], v[5], v[6])
      else if t == 88 then OrderCancel(v[4], v[5])
      else if t == 68 then OrderDelete(v[4])
      else if t == 70 then
        AddOrderMpid(v[4], if v[5] == 66 then Buy else Sell, v[6], Chars(v[7..15]), v[15], Chars(v[16..20]))
      else if t == 67 then OrderExecutedWithPrice(v[4], v[5], v[6], v[7], v[8])
      else OrderReplace(v[4], v[5], v[6], v[7]))
  }

  function Chars(v: seq<nat>): seq<Bytes.Byte> {
    seq(|v|, i requires 0 <= i < |v| => v[i] % 256)
  }

  /** The header of a message that is long enough to have one. */
  function HeaderOf(bs: seq<Bytes.Byte>): Header
    requires |bs| >= 11
  {
    Header(Bytes.Number(bs[1..3]), Bytes.Number(bs[3..5]), Bytes.Number(bs[5..11]))
  }

  function Decode(bs: seq<Bytes.Byte>): Option<Framed> {
    if bs == [] then None
    else if bs[0] in BOOK_TYPES then
      if |bs| != Bytes.Width(Layout(bs[0])) then None else Some(Build(bs[0], Bytes.GetAll(bs, Layout(bs[0]))))
    else if |bs| == NoticeSize(bs[0]) then Some(Framed(HeaderOf(bs), Notice(bs[0])))
    else None
  }

  /** The message as the receiver sees it: every number cut to its field. */
  function OnTheWire(f: Framed): Framed {
    var h := f.header;
    Framed(Header(h.locate % 0x1_0000, h.tracking % 0x1_0000, h.timestamp % 0x1_0000_0000_0000),
      match f.msg
      case AddOrder(ref, side, shares, stock, price) =>
        AddOrder(ref % 0x1_0000_0000_0000_0000, side, shares % 0x1_0000_0000, stock, price % 0x1_0000_0000)
      case OrderExecuted(ref, shares, matchNumber) =>
        OrderExecuted(ref % 0x1_0000_0000_0000_0000, shares % 0x1_0000_0000, matchNumber % 0x1_0000_0000_0000_0000)
      case OrderCancel(ref, shares) => OrderCancel(ref % 0x1_0000_0000_0000_0000, shares % 0x1_0000_0000)
      case OrderDelete(ref) => OrderDelete(ref % 0x1_0000_0000_0000_0000)
      case OrderReplace(original, newRef, shares, price) =>
        OrderReplace(original % 0x1_0000_0000_0000_0000, newRef % 0x1_0000_0000_0000_0000, shares % 0x1_0000_0000,
                     price % 0x1_0000_0000)
      case AddOrderMpid(ref, side, shares, stock, price, attribution) =>
        AddOrderMpid(ref % 0x1_0000_0000_0000_0000, side, shares % 0x1_0000_0000, stock, price % 0x1_0000_0000,
          attribution)
      case OrderExecutedWithPrice(ref, shares, matchNumber, printable, price) =>
        OrderExecutedWithPrice(ref % 0x1_0000_0000_0000_0000, shares % 0x1_0000_0000,
                               matchNumber % 0x1_0000_0000_0000_0000, printable % 0x100, price % 0x1_0000_0000)
      case Notice(kind) => Notice(kind))
  }

  lemma {:induction false} CutAt(vs: seq<nat>, ws: seq<nat>)
    requires |vs| == |ws|
    ensures forall i | 0 <= i < |vs| ::
      && (ws[i] == 1 ==> Bytes.Cut(vs, ws)[i] == vs[i] % 0x100)
      && (ws[i] == 2 ==> Bytes.Cut(vs, ws)[i] == vs[i] % 0x1_0000)
      && (ws[i] == 4 ==> Bytes.Cut(vs, ws)[i] == vs[i] % 0x1_0000_0000)
      && (ws[i] == 6 ==> Bytes.Cut(vs, ws)[i] == vs[i] % 0x1_0000_0000_0000)
      && (ws[i] == 8 ==> Bytes.Cut(vs, ws)[i] == vs[i] % 0x1_0000_0000_0000_0000)
  {
    Bytes.Powers();
    hide Bytes.Power;
  }

  lemma {:induction false} FirstByte(vs: seq<nat>, ws: seq<nat>)
    requires |vs| == |ws| > 0 && ws[0] == 1 && vs[0] < 256
    ensures Bytes.PutAll(vs, ws)[0] == vs[0]
  {
    assert Bytes.Put(vs[0], 1) == [vs[0]];
  }

  lemma {:induction false} AddWidths()
    ensures Layout(65) == [1, 2, 2, 6, 8, 1, 4, 1, 1, 1, 1, 1, 1, 1, 1, 4]
  {
  }

  lemma {:induction false} AddValues(f: Framed)
    requires f.msg.AddOrder? && WireSymbol(f.msg.stock)
    ensures var vs := Values(f);
      && |vs| == 16 && vs[1] == f.header.locate && vs[2] == f.header.tracking && vs[3] == f.header.timestamp
      && vs[4] == f.msg.ref && vs[5] == SideByte(f.msg.side) && vs[6] == f.msg.shares && vs[15] == f.msg.price
      && vs[7..15] == f.msg.stock
  {
    var vs := Values(f);
    assert vs[7..15] == f.msg.stock;
  }

  lemma {:induction false} StockChars(vs: seq<nat>, c: seq<nat>, stock: Symbol)
    requires |vs| == |c| >= 15 && WireSymbol(stock) && vs[7..15] == stock
    requires forall i | 7 <= i < 15 :: c[i] == vs[i] % 256
    ensures Chars(c[7..15]) == stock
  {
    forall i | 0 <= i < 8 ensures Chars(c[7..15])[i] == stock[i] {
      assert c[7..15][i] == c[7 + i] && vs[7..15][i] == vs[7 + i];
    }
  }

  lemma {:induction false} SideIsByte(side: Side)
    ensures SideByte(side) % 0x100 == SideByte(side) && (SideByte(side) == 66 <==> side.Buy?)
  {
  }

  lemma {:induction false} BuildAdd(f: Framed)
    requires f.msg.AddOrder? && WireSymbol(f.msg.stock)
    ensures Build(65, Bytes.Cut(Values(f), Layout(65))) == OnTheWire(f)
  {
    hide Bytes.Cut, Values, Chars, Layout, SideByte, Bytes.Power, TypeCode;
    AddWidths();
    AddValues(f);
    SideIsByte(f.msg.side);
    CutAt(Values(f), Layout(65));
    StockChars(Values(f), Bytes.Cut(Values(f), Layout(65)), f.msg.stock);
  }

  lemma {:induction false} MpidWidths()
    ensures Layout(70) == [1, 2, 2, 6, 8, 1, 4, 1, 1, 1, 1, 1, 1, 1, 1, 4, 1, 1, 1, 1]
  {
  }

  lemma {:induction false} MpidValues(f: Framed)
    requires f.msg.AddOrderMpid? && Encodable(f.msg)
    ensures var vs := Values(f);
      && |vs| == 20 && vs[1] == f.header.locate && vs[2] == f.header.tracking && vs[3] == f.header.timestamp
      && vs[4] == f.msg.ref && vs[5] == SideByte(f.msg.side) && vs[6] == f.msg.shares && vs[15] == f.msg.price
      && vs[7..15] == f.msg.stock && vs[16..20] == f.msg.attribution
  {
    var vs := Values(f);
    assert vs[7..15] == f.msg.stock && vs[16..20] == f.msg.attribution;
  }

  lemma {:induction false} AttributionChars(vs: seq<nat>, c: seq<nat>, attribution: seq<Bytes.Byte>)
    requires |vs| == |c| == 20 && |attribution| == 4 && vs[16..20] == attribution
    requires forall i | 16 <= i < 20 :: c[i] == vs[i] % 256
    ensures Chars(c[16..20]) == attribution
  {
    forall i | 0 <= i < 4 ensures Chars(c[16..20])[i] == attribution[i] {
      assert c[16..20][i] == c[16 + i] && vs[16..20][i] == vs[16 + i];
    }
  }

  lemma {:induction false} BuildMpid(f: Framed)
    requires f.msg.AddOrderMpid? && Encodable(f.msg)
    ensures Build(70, Bytes.Cut(Values(f), Layout(70))) == OnTheWire(f)
  {
    hide Bytes.Cut, Values, Chars, Layout, SideByte, Bytes.Power, TypeCode;
    MpidWidths();
    MpidValues(f);
    SideIsByte(f.msg.side);
    CutAt(Values(f), Layout(70));
    StockChars(Values(f), Bytes.Cut(Values(f), Layout(70)), f.msg.stock);
    AttributionChars(Values(f), Bytes.Cut(Values(f), Layout(70)), f.msg.attribution);
  }

  lemma {:induction false} BuildOther(f: Framed)
    requires !f.msg.AddOrder? && !f.msg.AddOrderMpid? && !f.msg.Notice?
    ensures Build(TypeCode(f.msg), Bytes.Cut(Values(f), Layout(TypeCode(f.msg)))) == OnTheWire(f)
  {
    CutAt(Values(f), Layout(TypeCode(f.msg)));
    hide Bytes.Cut;
  }

  /** Decoding an encoded message yields the message, cut to the wire. */
  lemma {:induction false} RoundTrip(f: Framed)
    requires Encodable(f.msg)
    ensures Decode(Encode(f)) == Some(OnTheWire(f))
  {
    var vs, t := Values(f), TypeCode(f.msg);
    FirstByte(vs, Layout(t));
    Bytes.GetAllPutAll(vs, Layout(t));
    if f.msg.AddOrder? { BuildAdd(f); } else if f.msg.AddOrderMpid? { BuildMpid(f); } else { BuildOther(f); }
    hide Bytes.PutAll, Bytes.GetAll, Bytes.Cut, Bytes.Width, Build, OnTheWire, Values, Layout;
  }
}
