/** Where the fields of the ITCH messages lie, byte by byte. */
module ItchLayout {
  import opened EngineSpec
  import opened Itch
  import opened Bytes

  /** These `w` bytes hold the number, most significant byte first, cut to their width. */
  predicate Holds(bs: seq<Byte>, at: nat, w: nat, v: nat) {
    at + w <= |bs| && bs[at..at + w] == Put(v, w)
  }

  /** The header of every message: its type, the locate code, the tracking number and the time. */
  predicate HeaderAt(bs: seq<Byte>, kind: nat, h: Header) {
    && |bs| >= 11 && bs[0] == kind
    && Holds(bs, 1, 2, h.locate) && Holds(bs, 3, 2, h.tracking) && Holds(bs, 5, 6, h.timestamp)
  }

  // ---------------------------------------------------------------- offsets

  function Offset(ws: seq<nat>, i: nat): nat
    requires i <= |ws|
  {
    Width(ws[..i])
  }

  lemma {:induction false} WidthLast(ws: seq<nat>)
    requires ws != []
    ensures Width(ws) == Width(ws[..|ws| - 1]) + ws[|ws| - 1]
  {
    if |ws| > 1 {
      WidthLast(ws[1..]);
      assert ws[1..][..|ws| - 2] == ws[..|ws| - 1][1..];
    }
  }

  lemma {:induction false} Offsets(ws: seq<nat>)
    ensures Offset(ws, 0) == 0 && Offset(ws, |ws|) == Width(ws)
    ensures forall i: nat {:trigger ws[i]} | i < |ws| :: Offset(ws, i + 1) == Offset(ws, i) + ws[i]
  {
    assert ws[..|ws|] == ws;
    forall i: nat | i < |ws| ensures Offset(ws, i + 1) == Offset(ws, i) + ws[i] {
      WidthLast(ws[..i + 1]);
      assert ws[..i + 1][..i] == ws[..i];
    }
  }

  lemma {:induction false} HeldBehind(head: seq<Byte>, bs: seq<Byte>, at: nat, w: nat, v: nat)
    requires Holds(bs, at, w, v)
    ensures Holds(head + bs, |head| + at, w, v)
  {
    hide Put;
    assert (head + bs)[|head| + at..|head| + at + w] == bs[at..at + w];
  }

  /** Each field lies at its offset. */
  lemma {:induction false} FieldAt(vs: seq<nat>, ws: seq<nat>, i: nat)
    requires |vs| == |ws| && i < |ws|
    ensures Holds(PutAll(vs, ws), Offset(ws, i), ws[i], vs[i])
    decreases i
  {
    var head, rest := Put(vs[0], ws[0]), PutAll(vs[1..], ws[1..]);
    if i == 0 {
      assert (head + rest)[0..ws[0]] == head;
    } else {
      FieldAt(vs[1..], ws[1..], i - 1);
      assert ws[1..][..i - 1] == ws[..i][1..];
      HeldBehind(head, rest, Offset(ws[1..], i - 1), ws[i], vs[i]);
      hide Put, Holds;
    }
  }

  lemma {:induction false} OneByte(bs: seq<Byte>, at: nat, v: nat)
    requires Holds(bs, at, 1, v) && v < 256
    ensures bs[at] == v
  {
    assert Put(v, 1) == Put(v / 256, 0) + [v % 256] == [v];
    assert bs[at..at + 1][0] == v;
  }

  // ---------------------------------------------------------------- the header

  lemma {:induction false} HeaderValues(f: Framed)
    requires Encodable(f.msg)
    ensures var vs, ws := Values(f), Layout(TypeCode(f.msg));
      && |vs| == |ws| >= 4 && ws[0] == 1 && ws[1] == 2 && ws[2] == 2 && ws[3] == 6 && vs[0] == TypeCode(f.msg) < 256
      && vs[1] == f.header.locate && vs[2] == f.header.tracking && vs[3] == f.header.timestamp
  {
  }

  lemma {:induction false} HeaderOffsets(ws: seq<nat>)
    requires |ws| >= 4 && ws[0] == 1 && ws[1] == 2 && ws[2] == 2 && ws[3] == 6
    ensures Offset(ws, 0) == 0 && Offset(ws, 1) == 1 && Offset(ws, 2) == 3 && Offset(ws, 3) == 5 && Offset(ws, 4) == 11
  {
    Offsets(ws);
    hide Offset;
  }

  lemma {:induction false} HeaderLayout(f: Framed)
    requires Encodable(f.msg)
    ensures HeaderAt(Encode(f), TypeCode(f.msg), f.header)
  {
    var vs, ws := Values(f), Layout(TypeCode(f.msg));
    HeaderValues(f);
    hide Values, Layout, PutAll, Width, Offset, Holds, TypeCode;
    HeaderOffsets(ws);
    FieldAt(vs, ws, 0);
    FieldAt(vs, ws, 1);
    FieldAt(vs, ws, 2);
    FieldAt(vs, ws, 3);
    OneByte(Encode(f), 0, vs[0]);
    HeldInside(Encode(f), 5, 6, f.header.timestamp);
  }

  lemma {:induction false} HeldInside(bs: seq<Byte>, at: nat, w: nat, v: nat)
    requires Holds(bs, at, w, v)
    ensures at + w <= |bs|
  {
  }

  // ---------------------------------------------------------------- the bodies

  lemma {:induction false} BodyOffset(t: nat, i: nat)
    requires i <= |Body(t)|
    ensures Offset(Layout(t), 4 + i) == 11 + Offset(Body(t), i)
    decreases i
  {
    var b, ws := Body(t), Layout(t);
    assert ws == HEADER + b && ws[0] == 1 && ws[1] == 2 && ws[2] == 2 && ws[3] == 6;
    hide Body, Layout;
    HeaderOffsets(ws);
    Offsets(ws);
    Offsets(b);
    hide Offset;
    if i > 0 {
      BodyOffset(t, i - 1);
      assert ws[4 + (i - 1)] == b[i - 1];
    }
  }

  /** The body's field number `i`. */
  lemma {:induction false} BodyField(f: Framed, i: nat)
    requires Encodable(f.msg) && i < |Body(TypeCode(f.msg))|
    ensures |Values(f)| == 4 + |Body(TypeCode(f.msg))|
    ensures Holds(Encode(f), 11 + Offset(Body(TypeCode(f.msg)), i), Body(TypeCode(f.msg))[i], Values(f)[4 + i])
  {
    var vs, t := Values(f), TypeCode(f.msg);
    HeaderValues(f);
    assert Layout(t)[4 + i] == Body(t)[i];
    BodyOffset(t, i);
    hide Values, Body, PutAll, Offset, Holds, TypeCode;
    FieldAt(vs, Layout(t), 4 + i);
  }

  lemma {:induction false} TotalLength(f: Framed)
    requires Encodable(f.msg)
    ensures |Encode(f)| == 11 + Offset(Body(TypeCode(f.msg)), |Body(TypeCode(f.msg))|)
  {
    var t := TypeCode(f.msg);
    BodyOffset(t, |Body(t)|);
    Offsets(Layout(t));
    hide Body, PutAll, Offset;
  }

  lemma {:induction false} ExecutedFields(f: Framed)
    requires f.msg.OrderExecuted?
    ensures var b, vs := Body(69), Values(f);
      && TypeCode(f.msg) == 69 && Encodable(f.msg) && |b| == 3 && |vs| == 7
      && b[0] == 8 && b[1] == 4 && b[2] == 8
      && vs[4] == f.msg.ref && vs[5] == f.msg.shares && vs[6] == f.msg.matchNumber
  {
  }

  /** An execution: the order's reference, the shares and the match number. */
  lemma {:induction false} ExecutedLayout(f: Framed)
    requires f.msg.OrderExecuted?
    ensures var bs := Encode(f);
      && |bs| == 31 && HeaderAt(bs, 69, f.header)
      && Holds(bs, 11, 8, f.msg.ref) && Holds(bs, 19, 4, f.msg.shares) && Holds(bs, 23, 8, f.msg.matchNumber)
  {
    hide *;
    ExecutedFields(f);
    HeaderLayout(f);
    TotalLength(f);
    Offsets(Body(69));
    BodyField(f, 0);
    BodyField(f, 1);
    BodyField(f, 2);
  }

  lemma {:induction false} CancelFields(f: Framed)
    requires f.msg.OrderCancel?
    ensures var b, vs := Body(88), Values(f);
      && TypeCode(f.msg) == 88 && Encodable(f.msg) && |b| == 2 && |vs| == 6
      && b[0] == 8 && b[1] == 4
      && vs[4] == f.msg.ref && vs[5] == f.msg.shares
  {
  }

  /** A cancel: the order's reference and the shares it lost. */
  lemma {:induction false} CancelLayout(f: Framed)
    requires f.msg.OrderCancel?
    ensures var bs := Encode(f);
      |bs| == 23 && HeaderAt(bs, 88, f.header) && Holds(bs, 11, 8, f.msg.ref) && Holds(bs, 19, 4, f.msg.shares)
  {
    hide *;
    CancelFields(f);
    HeaderLayout(f);
    TotalLength(f);
    Offsets(Body(88));
    BodyField(f, 0);
    BodyField(f, 1);
  }

  lemma {:induction false} DeleteFields(f: Framed)
    requires f.msg.OrderDelete?
    ensures var b, vs := Body(68), Values(f);
      && TypeCode(f.msg) == 68 && Encodable(f.msg) && |b| == 1 && |vs| == 5
      && b[0] == 8
      && vs[4] == f.msg.ref
  {
  }

  /** A delete: the order's reference. */
  lemma {:induction false} DeleteLayout(f: Framed)
    requires f.msg.OrderDelete?
    ensures var bs := Encode(f); |bs| == 19 && HeaderAt(bs, 68, f.header) && Holds(bs, 11, 8, f.msg.ref)
  {
    hide *;
    DeleteFields(f);
    HeaderLayout(f);
    TotalLength(f);
    Offsets(Body(68));
    BodyField(f, 0);
  }

  lemma {:induction false} ReplaceFields(f: Framed)
    requires f.msg.OrderReplace?
    ensures var b, vs := Body(85), Values(f);
      && TypeCode(f.msg) == 85 && Encodable(f.msg) && |b| == 4 && |vs| == 8
      && b[0] == 8 && b[1] == 8 && b[2] == 4 && b[3] == 4
      && vs[4] == f.msg.original && vs[5] == f.msg.newRef && vs[6] == f.msg.shares && vs[7] == f.msg.price
  {
  }

  /** A replace: the old reference, the new one, the shares and the price. */
  lemma {:induction false} ReplaceLayout(f: Framed)
    requires f.msg.OrderReplace?
    ensures var bs := Encode(f);
      && |bs| == 35 && HeaderAt(bs, 85, f.header)
      && Holds(bs, 11, 8, f.msg.original) && Holds(bs, 19, 8, f.msg.newRef)
      && Holds(bs, 27, 4, f.msg.shares) && Holds(bs, 31, 4, f.msg.price)
  {
    hide *;
    ReplaceFields(f);
    HeaderLayout(f);
    TotalLength(f);
    Offsets(Body(85));
    BodyField(f, 0);
    BodyField(f, 1);
    BodyField(f, 2);
    BodyField(f, 3);
  }

  lemma {:induction false} PricedFields(f: Framed)
    requires f.msg.OrderExecutedWithPrice?
    ensures var b, vs := Body(67), Values(f);
      && TypeCode(f.msg) == 67 && Encodable(f.msg) && |b| == 5 && |vs| == 9
      && b[0] == 8 && b[1] == 4 && b[2] == 8 && b[3] == 1 && b[4] == 4
      && vs[4] == f.msg.ref && vs[5] == f.msg.shares && vs[6] == f.msg.matchNumber && vs[7] == f.msg.printable
        && vs[8] == f.msg.price
  {
  }

  /** An execution at another price: as an execution, then the printable flag and the price. */
  lemma {:induction false} PricedLayout(f: Framed)
    requires f.msg.OrderExecutedWithPrice?
    ensures var bs := Encode(f);
      && |bs| == 36 && HeaderAt(bs, 67, f.header)
      && Holds(bs, 11, 8, f.msg.ref) && Holds(bs, 19, 4, f.msg.shares) && Holds(bs, 23, 8, f.msg.matchNumber)
      && Holds(bs, 31, 1, f.msg.printable) && Holds(bs, 32, 4, f.msg.price)
  {
    hide *;
    PricedFields(f);
    HeaderLayout(f);
    TotalLength(f);
    Offsets(Body(67));
    BodyField(f, 0);
    BodyField(f, 1);
    BodyField(f, 2);
    BodyField(f, 3);
    BodyField(f, 4);
  }

  /** What the two kinds of order entry share: reference, side, shares, symbol and price. */
  predicate EntryAt(bs: seq<Byte>, m: ItchMessage)
    requires m.AddOrder? || m.AddOrderMpid?
  {
    && |bs| >= 36 && Holds(bs, 11, 8, m.ref) && bs[19] == (if m.side.Buy? then 66 else 83) && Holds(bs, 20, 4, m.shares)
    && bs[24..32] == m.stock && Holds(bs, 32, 4, m.price)
  }

  lemma {:induction false} EntryOffsets(b: seq<nat>)
    requires |b| >= 12 && b[0] == 8 && b[1] == 1 && b[2] == 4 && b[11] == 4 && forall i | 3 <= i < 11 :: b[i] == 1
    ensures Offset(b, 0) == 0 && Offset(b, 1) == 8 && Offset(b, 2) == 9 && Offset(b, 11) == 21 && Offset(b, 12) == 25
    ensures forall i: nat | 3 <= i <= 11 :: Offset(b, i) == 10 + i
  {
    Offsets(b);
    hide Offset;
    assert b[3] == b[4] == b[5] == b[6] == b[7] == b[8] == b[9] == b[10] == 1;
    assert Offset(b, 3) == 13 && Offset(b, 4) == 14 && Offset(b, 5) == 15 && Offset(b, 6) == 16 && Offset(b, 7) == 17
      && Offset(b, 8) == 18 && Offset(b, 9) == 19 && Offset(b, 10) == 20;
  }

  lemma {:induction false} EntryFields(f: Framed)
    requires (f.msg.AddOrder? || f.msg.AddOrderMpid?) && Encodable(f.msg)
    ensures var b, vs := Body(TypeCode(f.msg)), Values(f);
      && |b| == (if f.msg.AddOrder? then 12 else 16) && |vs| == 4 + |b|
      && b[0] == 8 && b[1] == 1 && b[2] == 4 && b[11] == 4 && (forall i | 3 <= i < |b| && i != 11 :: b[i] == 1)
      && vs[4] == f.msg.ref && vs[5] == (if f.msg.side.Buy? then 66 else 83) && vs[6] == f.msg.shares
      && vs[15] == f.msg.price && |f.msg.stock| == 8 && (forall i: nat | i < 8 :: vs[7 + i] == f.msg.stock[i])
  {
    if f.msg.AddOrder? { AddValues(f); } else { MpidValues(f); }
    var vs := Values(f);
    hide Values;
    forall i: nat | i < 8 ensures vs[7 + i] == f.msg.stock[i] { assert vs[7..15][i] == vs[7 + i]; }
  }

  /** Where the five fields lie. */
  predicate EntryHeld(bs: seq<Byte>, m: ItchMessage)
    requires (m.AddOrder? || m.AddOrderMpid?) && |m.stock| == 8
  {
    && Holds(bs, 11, 8, m.ref) && Holds(bs, 19, 1, if m.side.Buy? then 66 else 83) && Holds(bs, 20, 4, m.shares)
    && (forall i: nat | i < 8 :: Holds(bs, 24 + i, 1, m.stock[i])) && Holds(bs, 32, 4, m.price)
  }

  lemma {:induction false} EntryIsHeld(f: Framed)
    requires (f.msg.AddOrder? || f.msg.AddOrderMpid?) && Encodable(f.msg) && |f.msg.stock| == 8
    ensures EntryHeld(Encode(f), f.msg)
  {
    hide Encode, Holds, Offset, Values, Body, TypeCode, Encodable;
    EntryFields(f);
    EntryOffsets(Body(TypeCode(f.msg)));
    BodyField(f, 0);
    BodyField(f, 1);
    BodyField(f, 2);
    BodyField(f, 11);
    forall i: nat | i < 8 ensures Holds(Encode(f), 24 + i, 1, f.msg.stock[i]) { BodyField(f, 3 + i); }
  }

  lemma {:induction false} EntryLayout(f: Framed)
    requires (f.msg.AddOrder? || f.msg.AddOrderMpid?) && Encodable(f.msg)
    ensures EntryAt(Encode(f), f.msg)
  {
    EntryIsHeld(f);
    var bs := Encode(f);
    hide Encode, Holds, Encodable;
    HeldInside(bs, 32, 4, f.msg.price);
    OneByte(bs, 19, if f.msg.side.Buy? then 66 else 83);
    TextAt(bs, 24, f.msg.stock);
  }

  lemma {:induction false} TextAt(bs: seq<Byte>, at: nat, text: seq<Byte>)
    requires at + |text| <= |bs| && forall i: nat | i < |text| :: Holds(bs, at + i, 1, text[i])
    ensures bs[at..at + |text|] == text
  {
    hide Holds;
    forall i: nat | i < |text| ensures bs[at + i] == text[i] { OneByte(bs, at + i, text[i]); }
  }

  /** An order: reference, side, shares, symbol and price. */
  lemma {:induction false} AddLayout(f: Framed)
    requires f.msg.AddOrder? && WireSymbol(f.msg.stock)
    ensures |Encode(f)| == 36 && HeaderAt(Encode(f), 65, f.header) && EntryAt(Encode(f), f.msg)
  {
    assert Encodable(f.msg) && TypeCode(f.msg) == 65;
    hide *;
    EntryFields(f);
    EntryOffsets(Body(65));
    HeaderLayout(f);
    EntryLayout(f);
    TotalLength(f);
  }

  lemma {:induction false} AttributionValues(f: Framed)
    requires f.msg.AddOrderMpid? && Encodable(f.msg)
    ensures TypeCode(f.msg) == 70 && |Values(f)| == 20 && |f.msg.attribution| == 4
    ensures forall i: nat | i < 4 :: Values(f)[16 + i] == f.msg.attribution[i]
  {
    MpidValues(f);
    var vs := Values(f);
    hide Values;
    forall i: nat | i < 4 ensures vs[16 + i] == f.msg.attribution[i] { assert vs[16..20][i] == vs[16 + i]; }
  }

  /** An order with attribution: the same, and four bytes more. */
  lemma {:induction false} MpidLayout(f: Framed)
    requires f.msg.AddOrderMpid? && Encodable(f.msg)
    ensures |Encode(f)| == 40 && HeaderAt(Encode(f), 70, f.header) && EntryAt(Encode(f), f.msg)
    ensures Encode(f)[36..40] == f.msg.attribution
  {
    hide *;
    var b, bs := Body(70), Encode(f);
    AttributionValues(f);
    EntryFields(f);
    HeaderLayout(f);
    EntryLayout(f);
    TotalLength(f);
    EntryOffsets(b);
    Offsets(b);
    assert b[12] == b[13] == b[14] == b[15] == 1;
    assert Offset(b, 13) == 26 && Offset(b, 14) == 27 && Offset(b, 15) == 28 && Offset(b, 16) == 29;
    forall i: nat | i < 4 ensures Holds(bs, 36 + i, 1, f.msg.attribution[i]) { BodyField(f, 12 + i); }
    TextAt(bs, 36, f.msg.attribution);
  }
}
