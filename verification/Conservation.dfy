/** Quantity is conserved: per order over every run of the map book, and between buyers and sellers. */
module Conservation {
  import opened Types
  import opened PriceTime
  import opened BookInvariants
  import opened EngineRun

  /** The columns of an order's account, as its client sees them in the responses. */
  datatype Column = Entered | Traded | Dropped

  function Amount(c: Column, o: Output, t: TickerId, m: OrderId): nat {
    if o.Public? || o.resp.ticker != t || o.resp.moid != m then 0
    else
      match o.resp.status
      case Accepted => if c.Entered? then o.resp.qty else 0
      case Modified => if c.Entered? then o.resp.qty else 0
      case Executed => if c.Traded? then o.resp.executed else 0
      case Canceled => if c.Dropped? then o.resp.leaves else 0
      case CancelRejected => 0
  }

  function Total(c: Column, outs: seq<Output>, t: TickerId, m: OrderId): nat {
    if outs == [] then 0 else Amount(c, outs[0], t, m) + Total(c, outs[1..], t, m)
  }

  lemma {:induction false} TotalConcat(c: Column, a: seq<Output>, b: seq<Output>, t: TickerId, m: OrderId)
    ensures Total(c, a + b, t, m) == Total(c, a, t, m) + Total(c, b, t, m)
  {
    if a == [] {
      assert a + b == b;
    } else {
      assert (a + b)[1..] == a[1..] + b;
      TotalConcat(c, a[1..], b, t, m);
    }
  }

  lemma TotalOne(c: Column, o: Output, t: TickerId, m: OrderId)
    ensures Total(c, [o], t, m) == Amount(c, o, t, m)
  {
  }

  lemma TotalTwo(c: Column, o: Output, o': Output, t: TickerId, m: OrderId)
    ensures Total(c, [o, o'], t, m) == Amount(c, o, t, m) + Amount(c, o', t, m)
  {
    assert [o, o'] == [o] + [o'];
    TotalConcat(c, [o], [o'], t, m);
  }

  /** Quantity resting under id m. */
  function Held(l: seq<Order>, m: OrderId): nat {
    if l == [] then 0 else (if l[0].moid == m then l[0].remaining else 0) + Held(l[1..], m)
  }

  lemma {:induction false} HeldConcat(a: seq<Order>, b: seq<Order>, m: OrderId)
    ensures Held(a + b, m) == Held(a, m) + Held(b, m)
  {
    if a == [] {
      assert a + b == b;
    } else {
      assert (a + b)[1..] == a[1..] + b;
      HeldConcat(a[1..], b, m);
    }
  }

  function HeldIn(b: Book, m: OrderId): nat {
    Held(b.bids, m) + Held(b.asks, m)
  }

  function Own(o: Order, m: OrderId): nat {
    if o.moid == m then o.remaining else 0
  }

  lemma HeldSplit(l: seq<Order>, k: nat, m: OrderId)
    requires k < |l|
    ensures Held(l, m) == Held(l[..k], m) + Own(l[k], m) + Held(l[k + 1..], m)
  {
    assert l == l[..k] + [l[k]] + l[k + 1..];
    HeldConcat(l[..k] + [l[k]], l[k + 1..], m);
    HeldConcat(l[..k], [l[k]], m);
  }

  lemma HeldRemove(l: seq<Order>, k: nat, m: OrderId)
    requires k < |l|
    ensures Held(l, m) == Held(Remove(l, k), m) + Own(l[k], m)
  {
    HeldSplit(l, k, m);
    HeldConcat(l[..k], l[k + 1..], m);
  }

  lemma HeldUpdate(l: seq<Order>, k: nat, o: Order, m: OrderId)
    requires k < |l|
    ensures Held(l[k := o], m) + Own(l[k], m) == Held(l, m) + Own(o, m)
  {
    HeldSplit(l, k, m);
    HeldSplit(l[k := o], k, m);
    assert l[k := o][..k] == l[..k] && l[k := o][k + 1..] == l[k + 1..];
  }

  lemma HeldInsert(l: seq<Order>, o: Order, m: OrderId)
    ensures Held(Insert(l, o), m) == Held(l, m) + Own(o, m)
  {
    var k := InsertPos(o.side, l, o.price);
    HeldConcat(l[..k] + [o], l[k..], m);
    HeldConcat(l[..k], [o], m);
    HeldConcat(l[..k], l[k..], m);
    assert l == l[..k] + l[k..];
  }

  // ---------------------------------------------------------------- matching moves quantity, never makes it

  lemma FillMoves(f: Flavor, opp: seq<Order>, inc: Incoming, left: Quantity, mid: OrderId, m: OrderId)
    requires opp != []
    ensures var s := FillFront(f, opp, inc, left, mid);
            && s.left <= left
            && Total(Entered, s.outs, inc.ticker, m) == 0 && Total(Dropped, s.outs, inc.ticker, m) == 0
            && Held(opp, m) + (if inc.moid == m then left - s.left else 0) ==
               Total(Traded, s.outs, inc.ticker, m) + Held(s.rest, m)
  {
    var s, fill := FillFront(f, opp, inc, left, mid), Min(left, opp[0].remaining);
    var o := opp[0].(remaining := opp[0].remaining - fill);
    if o.remaining == 0 {
      assert Held(opp, m) == Own(opp[0], m) + Held(opp[1..], m);
    } else {
      HeldUpdate(opp, 0, o, m);
    }
    forall c: Column
      ensures Total(c, s.outs, inc.ticker, m) ==
              if c.Traded? then (if o.moid == m then fill else 0) + (if inc.moid == m then fill else 0) else 0
    {
      var x, y, z := [s.outs[0]], [s.outs[1]], [s.outs[2]];
      assert s.outs == x + y + z;
      TotalConcat(c, x + y, z, inc.ticker, m);
      TotalConcat(c, x, y, inc.ticker, m);
    }
  }

  lemma {:induction false} MatchMoves(f: Flavor, opp: seq<Order>, inc: Incoming, left: Quantity, mid: OrderId,
                                      m: OrderId)
    ensures var r := Match(f, opp, inc, left, mid);
            && r.left <= left
            && Total(Entered, r.outs, inc.ticker, m) == 0 && Total(Dropped, r.outs, inc.ticker, m) == 0
            && Held(opp, m) + (if inc.moid == m then left - r.left else 0) ==
               Total(Traded, r.outs, inc.ticker, m) + Held(r.rest, m)
    decreases |opp|, left
  {
    hide Held, Total, FillOutputs, Crosses;
    if Stops(opp, inc, left) {
      NoTotal(inc.ticker, m);
    } else {
      var s := FillFront(f, opp, inc, left, mid);
      FillMoves(f, opp, inc, left, mid, m);
      MatchMoves(f, s.rest, inc, s.left, s.mid, m);
      forall c: Column
        ensures Total(c, Match(f, opp, inc, left, mid).outs, inc.ticker, m) ==
                Total(c, s.outs, inc.ticker, m) + Total(c, Match(f, s.rest, inc, s.left, s.mid).outs, inc.ticker, m)
      {
        TotalConcat(c, s.outs, Match(f, s.rest, inc, s.left, s.mid).outs, inc.ticker, m);
      }
    }
  }

  lemma NoTotal(t: TickerId, m: OrderId)
    ensures forall c: Column :: Total(c, [], t, m) == 0
  {
  }

  /** Matching and settling: the newcomer's quantity is traded, rests, or is dropped. */
  lemma SettleMoves(f: Flavor, b: Book, inc: Incoming, mid: OrderId, m: OrderId)
    ensures var r := Match(f, b.Orders(inc.side.Opposite()), inc, inc.qty, mid);
            && r.left <= inc.qty
            && Total(Entered, r.outs, inc.ticker, m) == 0 && Total(Dropped, r.outs, inc.ticker, m) == 0
            && HeldIn(b, m) + (if inc.moid == m then inc.qty else 0) ==
               Total(Traded, r.outs, inc.ticker, m) + HeldIn(Settle(b, inc, r.rest, r.left), m)
               + (if inc.moid == m && inc.otype.FillAndKill? then r.left else 0)
  {
    hide Held, Total, Match, PriceTime.Insert;
    var r := Match(f, b.Orders(inc.side.Opposite()), inc, inc.qty, mid);
    MatchMoves(f, b.Orders(inc.side.Opposite()), inc, inc.qty, mid, m);
    HeldInsert(b.Orders(inc.side), Resting(inc, r.left), m);
  }

  // ---------------------------------------------------------------- one request

  /** What a replace takes away from the order it replaces. */
  function Away(b: Book, req: Request, m: OrderId): nat {
    if req.action == ModifyOrder && ReplaceAccepted(b, req) then Own(Replaced(b, req), m) else 0
  }

  lemma AddConserves(b: Book, mid: OrderId, req: Request, m: OrderId)
    ensures var s := AddStep(MapForm, b, mid, req);
            HeldIn(b, m) + Total(Entered, s.outs, req.ticker, m) ==
            Total(Traded, s.outs, req.ticker, m) + Total(Dropped, s.outs, req.ticker, m) + HeldIn(s.book, m)
  {
    hide Held, Match, Settle, Total;
    var inc, b0 := NewIncoming(b, req), b.(nextId := b.nextId + 1);
    SettleMoves(MapForm, b0, inc, mid, m);
    var r := Match(MapForm, b0.Orders(inc.side.Opposite()), inc, inc.qty, mid);
    var outs := AddStep(MapForm, b, mid, req).outs;
    var head, tail := [Private(Notice(inc, Accepted, inc.qty))], AddTail(inc, r.left);
    assert outs == head + r.outs + tail;
    forall c: Column
      ensures Total(c, outs, req.ticker, m) ==
              Total(c, head, req.ticker, m) + Total(c, r.outs, req.ticker, m) + Total(c, tail, req.ticker, m)
      ensures Total(c, head, req.ticker, m) == Amount(c, head[0], req.ticker, m)
      ensures Total(c, tail, req.ticker, m) == if tail == [] then 0 else Amount(c, tail[0], req.ticker, m)
    {
      TotalConcat(c, head + r.outs, tail, req.ticker, m);
      TotalConcat(c, head, r.outs, req.ticker, m);
      TotalOne(c, head[0], req.ticker, m);
      NoTotal(req.ticker, m);
      if tail != [] {
        TotalOne(c, tail[0], req.ticker, m);
        assert tail == [tail[0]];
      }
    }
  }

  lemma CancelConserves(b: Book, mid: OrderId, req: Request, m: OrderId)
    ensures var s := CancelStep(MapForm, b, mid, req);
            HeldIn(b, m) + Total(Entered, s.outs, req.ticker, m) ==
            Total(Traded, s.outs, req.ticker, m) + Total(Dropped, s.outs, req.ticker, m) + HeldIn(s.book, m)
  {
    hide Held, Find;
    var s := CancelStep(MapForm, b, mid, req);
    if Present(b, req.client, req.coid) {
      var side := SideOf(b, req.client, req.coid);
      var l := b.Orders(side);
      var k := Find(l, req.client, req.coid);
      var canceled := CancelQty(req, l[k]);
      if canceled <= l[k].remaining {
        HeldRemove(l, k, m);
        HeldUpdate(l, k, l[k].(remaining := l[k].remaining - canceled), m);
        forall c: Column
          ensures Total(c, s.outs, req.ticker, m) ==
                  Amount(c, s.outs[0], req.ticker, m) + Amount(c, s.outs[1], req.ticker, m)
        {
          TotalTwo(c, s.outs[0], s.outs[1], req.ticker, m);
        }
      }
    }
  }

  lemma WithoutHeld(b: Book, req: Request, m: OrderId)
    requires Present(b, req.client, req.coid)
    ensures HeldIn(b, m) == HeldIn(WithoutReplaced(b, req), m) + Own(Replaced(b, req), m)
  {
    var l := b.Orders(SideOf(b, req.client, req.coid));
    HeldRemove(l, Find(l, req.client, req.coid), m);
  }

  lemma ReplaceConserves(b: Book, mid: OrderId, req: Request, m: OrderId)
    requires req.action == ModifyOrder
    ensures var s := ReplaceStep(MapForm, b, mid, req);
            HeldIn(b, m) + Total(Entered, s.outs, req.ticker, m) ==
            Total(Traded, s.outs, req.ticker, m) + Total(Dropped, s.outs, req.ticker, m) + Away(b, req, m)
            + HeldIn(s.book, m)
  {
    hide Held, Match, Settle, WithoutReplaced, Find;
    var s := ReplaceStep(MapForm, b, mid, req);
    if ReplaceAccepted(b, req) {
      var inc, r := ReplaceIncoming(b, req), ReplaceMatch(MapForm, b, mid, req);
      WithoutHeld(b, req, m);
      SettleMoves(MapForm, WithoutReplaced(b, req), inc, mid, m);
      var head, tail := ReplaceHead(b, req), ReplaceTail(MapForm, inc, r.left);
      forall c: Column
        ensures Total(c, s.outs, req.ticker, m) ==
                Total(c, head, req.ticker, m) + Total(c, r.outs, req.ticker, m) + Total(c, tail, req.ticker, m)
      {
        TotalConcat(c, head + r.outs, tail, req.ticker, m);
        TotalConcat(c, head, r.outs, req.ticker, m);
      }
      forall c: Column, o: Output, o': Output
        ensures Total(c, [o, o'], req.ticker, m) == Amount(c, o, req.ticker, m) + Amount(c, o', req.ticker, m)
      {
        TotalTwo(c, o, o', req.ticker, m);
      }
    }
  }

  lemma StepConserves(b: Book, mid: OrderId, req: Request, m: OrderId)
    ensures var s := Step(MapForm, b, mid, req);
            HeldIn(b, m) + Total(Entered, s.outs, req.ticker, m) ==
            Total(Traded, s.outs, req.ticker, m) + Total(Dropped, s.outs, req.ticker, m) + Away(b, req, m)
            + HeldIn(s.book, m)
  {
    match req.action
    case NewOrder => AddConserves(b, mid, req, m);
    case CancelOrder => CancelConserves(b, mid, req, m);
    case ModifyOrder => ReplaceConserves(b, mid, req, m);
  }

  // ---------------------------------------------------------------- whole runs

  /** All that replaces took away from order m of ticker t. */
  function ReplacedAway(n: nat, reqs: seq<Request>, t: TickerId, m: OrderId): nat
    requires InRange(n, reqs)
  {
    if reqs == [] then 0
    else
      ReplacedAway(n, Init(reqs), t, m)
      + if Last(reqs).ticker != t then 0
        else Away(Run(MapForm, n, Init(reqs)).engine.books[t], Last(reqs), m)
  }

  /** A step speaks only about its own ticker. */
  ghost predicate AllOf(outs: seq<Output>, t: TickerId) {
    forall i :: 0 <= i < |outs| ==> (if outs[i].Private? then outs[i].resp.ticker else outs[i].upd.ticker) == t
  }

  lemma {:induction false} MatchTicker(f: Flavor, opp: seq<Order>, inc: Incoming, left: Quantity, mid: OrderId)
    ensures AllOf(Match(f, opp, inc, left, mid).outs, inc.ticker)
    decreases |opp|, left
  {
    if !Stops(opp, inc, left) {
      var s := FillFront(f, opp, inc, left, mid);
      MatchTicker(f, s.rest, inc, s.left, s.mid);
    }
  }

  lemma StepTicker(f: Flavor, b: Book, mid: OrderId, req: Request)
    ensures AllOf(Step(f, b, mid, req).outs, req.ticker)
  {
    hide Match;
    match req.action
    case NewOrder =>
      var inc := NewIncoming(b, req);
      MatchTicker(f, b.Orders(inc.side.Opposite()), inc, inc.qty, mid);
    case CancelOrder =>
    case ModifyOrder =>
      if ReplaceAccepted(b, req) {
        var inc := ReplaceIncoming(b, req);
        MatchTicker(f, WithoutReplaced(b, req).Orders(inc.side.Opposite()), inc, inc.qty, mid);
      }
  }

  lemma {:induction false} OtherTicker(c: Column, outs: seq<Output>, t: TickerId, t': TickerId, m: OrderId)
    requires AllOf(outs, t) && t != t'
    ensures Total(c, outs, t', m) == 0
  {
    if outs != [] {
      assert (if outs[0].Private? then outs[0].resp.ticker else outs[0].upd.ticker) == t;
      OtherTicker(c, outs[1..], t, t', m);
    }
  }

  /** Over every run: entered == traded + dropped + replaced away + still resting, for every order. */
  lemma {:induction false} RunConserves(n: nat, reqs: seq<Request>, t: TickerId, m: OrderId)
    requires InRange(n, reqs) && t < n
    ensures var r := Run(MapForm, n, reqs);
            Total(Entered, r.outs, t, m) ==
            Total(Traded, r.outs, t, m) + Total(Dropped, r.outs, t, m) + ReplacedAway(n, reqs, t, m)
            + HeldIn(r.engine.books[t], m)
  {
    hide Step, Away, Amount, Held;
    if reqs == [] {
      EmptyHolds(m);
    } else {
      RunConserves(n, Init(reqs), t, m);
      var r, req := Run(MapForm, n, Init(reqs)), Last(reqs);
      var s := Step(MapForm, r.engine.books[req.ticker], r.engine.mid, req);
      forall c: Column
        ensures Total(c, Run(MapForm, n, reqs).outs, t, m) == Total(c, r.outs, t, m) + Total(c, s.outs, t, m)
        ensures req.ticker != t ==> Total(c, s.outs, t, m) == 0
      {
        TotalConcat(c, r.outs, s.outs, t, m);
        StepTicker(MapForm, r.engine.books[req.ticker], r.engine.mid, req);
        if req.ticker != t {
          OtherTicker(c, s.outs, req.ticker, t, m);
        }
      }
      if req.ticker == t {
        StepConserves(r.engine.books[t], r.engine.mid, req, m);
      }
    }
  }

  lemma EmptyHolds(m: OrderId)
    ensures HeldIn(EMPTY, m) == 0
  {
  }

  // ---------------------------------------------------------------- buyers and sellers

  /** Total executed quantity on one side of one ticker. */
  function Volume(side: Side, outs: seq<Output>, t: TickerId): nat {
    if outs == [] then 0
    else
      var o := outs[0];
      var own := o.Private? && o.resp.status == Executed && o.resp.side == side && o.resp.ticker == t;
      (if own then o.resp.executed else 0) + Volume(side, outs[1..], t)
  }

  lemma {:induction false} VolumeConcat(side: Side, a: seq<Output>, b: seq<Output>, t: TickerId)
    ensures Volume(side, a + b, t) == Volume(side, a, t) + Volume(side, b, t)
  {
    if a == [] {
      assert a + b == b;
    } else {
      assert (a + b)[1..] == a[1..] + b;
      VolumeConcat(side, a[1..], b, t);
    }
  }

  lemma Balanced(a: seq<Output>, b: seq<Output>, t: TickerId)
    requires Volume(Buy, a, t) == Volume(Sell, a, t) && Volume(Buy, b, t) == Volume(Sell, b, t)
    ensures Volume(Buy, a + b, t) == Volume(Sell, a + b, t)
  {
    VolumeConcat(Buy, a, b, t);
    VolumeConcat(Sell, a, b, t);
  }

  lemma FillBalanced(f: Flavor, inc: Incoming, o: Order, fill: Quantity, left: Quantity, mid: OrderId, t: TickerId)
    requires o.side == inc.side.Opposite()
    ensures var outs := FillOutputs(f, inc, o, fill, left, mid); Volume(Buy, outs, t) == Volume(Sell, outs, t)
  {
    var outs := FillOutputs(f, inc, o, fill, left, mid);
    var x, y, z := [outs[0]], [outs[1]], [outs[2]];
    assert outs == x + y + z;
    forall side: Side
      ensures Volume(side, outs, t) == Volume(side, x, t) + Volume(side, y, t) + Volume(side, z, t)
    {
      VolumeConcat(side, x + y, z, t);
      VolumeConcat(side, x, y, t);
      assert x[1..] == [] && y[1..] == [] && z[1..] == [];
    }
  }

  lemma {:induction false} MatchBalanced(f: Flavor, opp: seq<Order>, inc: Incoming, left: Quantity, mid: OrderId,
                                         nextId: OrderId, t: TickerId)
    requires SideInv(inc.side.Opposite(), opp, nextId)
    ensures var outs := Match(f, opp, inc, left, mid).outs; Volume(Buy, outs, t) == Volume(Sell, outs, t)
    decreases |opp|, left
  {
    if !Stops(opp, inc, left) {
      var s := FillFront(f, opp, inc, left, mid);
      assert Rests(inc.side.Opposite(), opp[0], nextId);
      var fill := Min(left, opp[0].remaining);
      FillBalanced(f, inc, opp[0].(remaining := opp[0].remaining - fill), fill, s.left, mid, t);
      FillShrinks(f, opp, inc, left, mid);
      ShrinksSide(inc.side.Opposite(), s.rest, opp, nextId);
      MatchBalanced(f, s.rest, inc, s.left, s.mid, nextId, t);
      Balanced(s.outs, Match(f, s.rest, inc, s.left, s.mid).outs, t);
    }
  }

  lemma {:induction false} QuietBalanced(outs: seq<Output>, t: TickerId)
    requires forall i :: 0 <= i < |outs| ==> outs[i].Private? ==> outs[i].resp.status != Executed
    ensures Volume(Buy, outs, t) == Volume(Sell, outs, t)
  {
    if outs != [] {
      QuietBalanced(outs[1..], t);
    }
  }

  lemma StepBalanced(f: Flavor, b: Book, mid: OrderId, req: Request, t: TickerId)
    requires BookInv(b)
    ensures var outs := Step(f, b, mid, req).outs; Volume(Buy, outs, t) == Volume(Sell, outs, t)
  {
    hide Volume, Match, Settle, SideInv, CrossInv, Uncrossed, WithoutReplaced;
    var outs := Step(f, b, mid, req).outs;
    match req.action
    case NewOrder =>
      var inc := NewIncoming(b, req);
      var m := Match(f, b.Orders(inc.side.Opposite()), inc, inc.qty, mid);
      MatchBalanced(f, b.Orders(inc.side.Opposite()), inc, inc.qty, mid, b.nextId, t);
      var head, tail := [Private(Notice(inc, Accepted, inc.qty))], AddTail(inc, m.left);
      QuietBalanced(head, t);
      QuietBalanced(tail, t);
      Balanced(head, m.outs, t);
      Balanced(head + m.outs, tail, t);
      assert outs == head + m.outs + tail;
    case CancelOrder =>
      QuietBalanced(outs, t);
    case ModifyOrder =>
      if ReplaceAccepted(b, req) {
        var inc, m := ReplaceIncoming(b, req), ReplaceMatch(f, b, mid, req);
        var b1 := WithoutReplaced(b, req);
        WithoutInv(b, req);
        MatchBalanced(f, b1.Orders(inc.side.Opposite()), inc, inc.qty, mid, b1.nextId, t);
        var head, tail := ReplaceHead(b, req), ReplaceTail(f, inc, m.left);
        QuietBalanced(head, t);
        QuietBalanced(tail, t);
        Balanced(head, m.outs, t);
        Balanced(head + m.outs, tail, t);
      } else {
        QuietBalanced(outs, t);
      }
  }

  /** Over every run of either book, what was bought of a ticker equals what was sold of it. */
  lemma {:induction false} RunBalanced(f: Flavor, n: nat, reqs: seq<Request>, t: TickerId)
    requires InRange(n, reqs) && FreshRun(f, n, reqs)
    ensures var outs := Run(f, n, reqs).outs; Volume(Buy, outs, t) == Volume(Sell, outs, t)
  {
    hide Step, Volume, BookInv;
    if reqs == [] {
      QuietBalanced([], t);
    } else {
      RunBalanced(f, n, Init(reqs), t);
      var r, req := Run(f, n, Init(reqs)), Last(reqs);
      RunInv(f, n, Init(reqs), req.ticker);
      StepBalanced(f, r.engine.books[req.ticker], r.engine.mid, req, t);
      Balanced(r.outs, Step(f, r.engine.books[req.ticker], r.engine.mid, req).outs, t);
    }
  }
}
