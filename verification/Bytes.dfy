/** Big-endian fields, the only byte-level primitive of the codecs. */
module Bytes {

  type Byte = x: int | 0 <= x < 256

  /** The low `n` bytes of a number, most significant first. */
  function Put(v: nat, n: nat): (bs: seq<Byte>)
    ensures |bs| == n
    decreases n
  {
    if n == 0 then [] else Put(v / 256, n - 1) + [v % 256]
  }

  function Number(bs: seq<Byte>): nat {
    if bs == [] then 0 else Number(bs[..|bs| - 1]) * 256 + bs[|bs| - 1]
  }

  function Power(n: nat): (p: nat)
    ensures p > 0
  {
    if n == 0 then 1 else 256 * Power(n - 1)
  }

  lemma {:induction false} ModUnique(x: int, k: int, q: int, r: int)
    requires k > 0 && x == q * k + r && 0 <= r < k
    ensures x % k == r
  {
    var n := q - x / k;
    assert n * k == x % k - r;
    assert n >= 1 ==> n * k >= k;
    assert n <= -1 ==> n * k <= -k;
  }

  lemma {:induction false} ModStep(v: nat, p: nat)
    requires p > 0
    ensures v % (256 * p) == (v / 256) % p * 256 + v % 256
  {
    var a, b := (v / 256) / p, (v / 256) % p;
    assert v / 256 == p * a + b;
    assert v == 256 * (p * a + b) + v % 256;
    assert 256 * (p * a + b) == a * (256 * p) + 256 * b;
    ModUnique(v, 256 * p, a, 256 * b + v % 256);
  }

  /** Reading back what was written yields the number modulo the width of the field. */
  lemma {:induction false} NumberPut(v: nat, n: nat)
    ensures Number(Put(v, n)) == v % Power(n)
    decreases n
  {
    if n > 0 {
      NumberPut(v / 256, n - 1);
      assert Put(v, n)[..n - 1] == Put(v / 256, n - 1);
      ModStep(v, Power(n - 1));
    }
  }

  /** The first byte is the most significant one. */
  lemma {:induction false} NumberFirst(b: Byte, bs: seq<Byte>)
    ensures Number([b] + bs) == b * Power(|bs|) + Number(bs)
  {
    if bs == [] {
      assert [b] + bs == [b] && [b][..0] == [];
    } else {
      var front, last := bs[..|bs| - 1], bs[|bs| - 1];
      NumberFirst(b, front);
      assert ([b] + bs)[..|bs|] == [b] + front;
      assert b * Power(|bs|) == b * Power(|front|) * 256;
    }
  }

  lemma {:induction false} Powers()
    ensures Power(1) == 0x100 && Power(2) == 0x1_0000 && Power(4) == 0x1_0000_0000
    ensures Power(6) == 0x1_0000_0000_0000 && Power(8) == 0x1_0000_0000_0000_0000
  {
    assert Power(2) == 256 * Power(1) && Power(3) == 256 * Power(2) && Power(4) == 256 * Power(3);
    assert Power(5) == 256 * Power(4) && Power(6) == 256 * Power(5) && Power(7) == 256 * Power(6)
      && Power(8) == 256 * Power(7);
  }

  // ---------------------------------------------------------------- records of fixed-width fields

  function Width(ws: seq<nat>): nat {
    if ws == [] then 0 else ws[0] + Width(ws[1..])
  }

  function PutAll(vs: seq<nat>, ws: seq<nat>): (bs: seq<Byte>)
    requires |vs| == |ws|
    ensures |bs| == Width(ws)
  {
    if vs == [] then [] else Put(vs[0], ws[0]) + PutAll(vs[1..], ws[1..])
  }

  function GetAll(bs: seq<Byte>, ws: seq<nat>): (vs: seq<nat>)
    requires |bs| == Width(ws)
    ensures |vs| == |ws|
    decreases |ws|
  {
    if ws == [] then [] else [Number(bs[..ws[0]])] + GetAll(bs[ws[0]..], ws[1..])
  }

  /** What is left of the values when they are cut to the width of their fields. */
  function Cut(vs: seq<nat>, ws: seq<nat>): (r: seq<nat>)
    requires |vs| == |ws|
    ensures |r| == |vs|
  {
    seq(|vs|, i requires 0 <= i < |vs| => vs[i] % Power(ws[i]))
  }

  lemma {:induction false} GetAllPutAll(vs: seq<nat>, ws: seq<nat>)
    requires |vs| == |ws|
    ensures GetAll(PutAll(vs, ws), ws) == Cut(vs, ws)
  {
    hide Power;
    if vs != [] {
      NumberPut(vs[0], ws[0]);
      GetAllPutAll(vs[1..], ws[1..]);
      var bs := PutAll(vs, ws);
      assert bs[..ws[0]] == Put(vs[0], ws[0]) && bs[ws[0]..] == PutAll(vs[1..], ws[1..]);
      assert Cut(vs, ws) == [vs[0] % Power(ws[0])] + Cut(vs[1..], ws[1..]);
    }
  }
}
