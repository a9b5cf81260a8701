/** The optimised book and the reference book cannot be told apart. */
module Equivalence {
  import opened Book
  import opened Snapshots
  import opened ReferenceBook
  import opened OptimisedBook

  method ExecReference(b: OrderBook, c: Command) returns (r: Reply)
    requires b.Valid() && !c.Immediate?
    modifies b
    ensures b.Valid()
    ensures var t := Apply(old(b.spec), c); b.spec == t.s && r == t.reply && b.events == old(b.events) + t.events
  {
    hide *;
    match c {
      case Add(id, side, price, qty) => var st, f, q := b.Add(id, side, price, qty); r := AddReply(st, f, q);
      case Cancel(id, keep) => var ok := b.Cancel(id, keep); r := BoolReply(ok);
      case Replace(oldId, newId, price, qty) => var ok := b.Replace(oldId, newId, price, qty); r := BoolReply(ok);
    }
  }

  method ExecFast(b: FastBook, c: Command) returns (r: Reply)
    requires b.Valid()
    modifies b, b.index
    ensures b.Valid()
    ensures var t := Apply(old(b.spec), c); b.spec == t.s && r == t.reply && b.events == old(b.events) + t.events
  {
    hide *;
    match c {
      case Add(id, side, price, qty) => var st, f, q := b.Add(id, side, price, qty); r := AddReply(st, f, q);
      case Cancel(id, keep) => var ok := b.Cancel(id, keep); r := BoolReply(ok);
      case Replace(oldId, newId, price, qty) => var ok := b.Replace(oldId, newId, price, qty); r := BoolReply(ok);
      case Immediate(id, side, limit, qty) => var f := b.ExecuteIoc(id, side, limit, qty); r := FillReply(f);
    }
  }

  lemma {:induction false} RunNone(cs: seq<Command>)
    ensures Run(cs[..0]) == Trace(EMPTY, [], []) && cs[..|cs|] == cs
  {
  }

  lemma {:induction false} RunSnoc(cs: seq<Command>, i: nat)
    requires i < |cs|
    ensures var t := Run(cs[..i]); var o := Apply(t.s, cs[i]);
      Run(cs[..i + 1]) == Trace(o.s, t.replies + [o.reply], t.events + o.events)
  {
    hide Apply;
    assert cs[..i + 1][..i] == cs[..i];
  }

  /** Everything a run of a book shows to the outside. */
  datatype Observed = Observed(replies: seq<Reply>, events: seq<Event>, snapshot: BookSnapshot)

  method ObserveReference(cs: seq<Command>) returns (o: Observed)
    requires forall c | c in cs :: !c.Immediate?
    ensures o == Observed(Run(cs).replies, Run(cs).events, Snapshots.Snapshot(Run(cs).s))
  {
    hide *;
    var b := new OrderBook();
    RunNone(cs);
    var replies: seq<Reply> := [];
    var i := 0;
    while i < |cs|
      invariant i <= |cs| && b.Valid() && fresh(b)
      invariant Run(cs[..i]) == Trace(b.spec, replies, b.events)
    {
      RunSnoc(cs, i);
      assert cs[i] in cs;
      var r := ExecReference(b, cs[i]);
      replies := replies + [r];
      i := i + 1;
    }
    var snap := b.Snapshot();
    o := Observed(replies, b.events, snap);
  }

  method ObserveFast(cs: seq<Command>, tick: int, bandHalfTicks: nat, expectedOrders: nat) returns (o: Observed)
    requires tick > 0
    ensures o == Observed(Run(cs).replies, Run(cs).events, Snapshots.Snapshot(Run(cs).s))
  {
    hide *;
    var b := new FastBook(tick, bandHalfTicks, expectedOrders);
    RunNone(cs);
    var replies: seq<Reply> := [];
    var i := 0;
    while i < |cs|
      invariant i <= |cs| && b.Valid() && fresh(b) && fresh(b.index)
      invariant Run(cs[..i]) == Trace(b.spec, replies, b.events)
    {
      RunSnoc(cs, i);
      var r := ExecFast(b, cs[i]);
      replies := replies + [r];
      i := i + 1;
    }
    var snap := b.Snapshot();
    o := Observed(replies, b.events, snap);
  }

  /** For every configuration and every run, both books give the same replies, events and snapshots. */
  method Differential(cs: seq<Command>, tick: int, bandHalfTicks: nat, expectedOrders: nat)
    returns (ref: Observed, fast: Observed)
    requires tick > 0 && forall c | c in cs :: !c.Immediate?
    ensures ref == fast
    ensures ref == Observed(Run(cs).replies, Run(cs).events, Snapshots.Snapshot(Run(cs).s))
  {
    hide *;
    ref := ObserveReference(cs);
    fast := ObserveFast(cs, tick, bandHalfTicks, expectedOrders);
  }
}
