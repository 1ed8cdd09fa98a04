/** The match ids of the map-book engine, over every run and across all tickers. */
module MatchIds {
  import opened Types
  import opened PriceTime
  import opened BookInvariants
  import opened EngineRun

  function IdOf(o: Output): OrderId {
    if o.Private? then o.resp.matchId else o.upd.matchId
  }

  /** The messages that carry match id m, in emission order. */
  function Tagged(outs: seq<Output>, m: OrderId): seq<Output> {
    if outs == [] then []
    else (if IdOf(outs[0]) == m then [outs[0]] else []) + Tagged(outs[1..], m)
  }

  /** The ids of the public trades, in emission order. */
  function TradeIds(outs: seq<Output>): seq<OrderId> {
    if outs == [] then []
    else (if outs[0].Public? && outs[0].upd.kind == Trade then [outs[0].upd.matchId] else []) + TradeIds(outs[1..])
  }

  lemma {:induction false} TaggedConcat(a: seq<Output>, b: seq<Output>, m: OrderId)
    ensures Tagged(a + b, m) == Tagged(a, m) + Tagged(b, m)
  {
    if a == [] {
      assert a + b == b;
    } else {
      assert (a + b)[1..] == a[1..] + b;
      TaggedConcat(a[1..], b, m);
    }
  }

  lemma {:induction false} TradeIdsConcat(a: seq<Output>, b: seq<Output>)
    ensures TradeIds(a + b) == TradeIds(a) + TradeIds(b)
  {
    if a == [] {
      assert a + b == b;
    } else {
      assert (a + b)[1..] == a[1..] + b;
      TradeIdsConcat(a[1..], b);
    }
  }

  /** Two executions on opposite sides and one trade, agreeing on quantity and price. */
  predicate OneTrade(outs: seq<Output>) {
    && |outs| == 3 && outs[0].Private? && outs[1].Private? && outs[2].Public?
    && var a, b, u := outs[0].resp, outs[1].resp, outs[2].upd;
    && a.status == Executed && b.status == Executed && u.kind == Trade
    && a.side == b.side.Opposite() == u.side
    && a.executed == b.executed == u.qty && 0 < u.qty
    && a.execPrice == b.execPrice == u.price == a.price
    && Crosses(b.side, b.price, b.execPrice)
    && u.moid == a.moid && a.ticker == b.ticker == u.ticker
  }

  /** outs issues exactly the ids from..to, each for one trade, in order. */
  ghost predicate Issues(outs: seq<Output>, from: OrderId, to: OrderId) {
    && from <= to
    && (forall m: OrderId :: from <= m < to ==> OneTrade(Tagged(outs, m)))
    && (forall m: OrderId :: m != INVALID_ID && !(from <= m < to) ==> Tagged(outs, m) == [])
    && |TradeIds(outs)| == to - from
    && (forall i :: 0 <= i < to - from ==> TradeIds(outs)[i] == from + i)
  }

  lemma IssuesConcat(a: seq<Output>, b: seq<Output>, from: OrderId, mid: OrderId, to: OrderId)
    requires Issues(a, from, mid) && Issues(b, mid, to) && to <= INVALID_ID
    ensures Issues(a + b, from, to)
  {
    forall m: OrderId | m != INVALID_ID
      ensures from <= m < to ==> OneTrade(Tagged(a + b, m))
      ensures !(from <= m < to) ==> Tagged(a + b, m) == []
    {
      hide OneTrade, TradeIds;
      TaggedConcat(a, b, m);
      if m < mid {
        assert Tagged(b, m) == [];
      } else {
        assert Tagged(a, m) == [];
      }
    }
    TradeIdsConcat(a, b);
  }

  /** A message that belongs to no fill. */
  predicate Plain(o: Output) {
    IdOf(o) == INVALID_ID && !(o.Public? && o.upd.kind == Trade)
  }

  lemma {:induction false} PlainIssues(outs: seq<Output>, mid: OrderId)
    requires forall i :: 0 <= i < |outs| ==> Plain(outs[i])
    ensures Issues(outs, mid, mid)
  {
    if outs != [] {
      PlainIssues(outs[1..], mid);
      forall m: OrderId | m != INVALID_ID
        ensures Tagged(outs, m) == []
      {
        assert Plain(outs[0]) && Tagged(outs[1..], m) == [];
      }
    }
  }

  lemma FillIssues(inc: Incoming, o: Order, fill: Quantity, left: Quantity, mid: OrderId)
    requires o.side == inc.side.Opposite() && 0 < fill && Crosses(inc.side, inc.price, o.price)
    ensures Issues(FillOutputs(MapForm, inc, o, fill, left, mid), mid, mid + 1)
  {
    var outs := FillOutputs(MapForm, inc, o, fill, left, mid);
    var x, y, z := [outs[0]], [outs[1]], [outs[2]];
    assert outs == x + y + z;
    forall m: OrderId
      ensures Tagged(outs, m) == if m == mid then outs else []
    {
      TaggedConcat(x + y, z, m);
      TaggedConcat(x, y, m);
    }
    TradeIdsConcat(x + y, z);
    TradeIdsConcat(x, y);
  }

  lemma {:induction false} MatchIssues(opp: seq<Order>, inc: Incoming, left: Quantity, mid: OrderId, nextId: OrderId)
    requires SideInv(inc.side.Opposite(), opp, nextId)
    requires Match(MapForm, opp, inc, left, mid).mid <= INVALID_ID
    ensures var m := Match(MapForm, opp, inc, left, mid); Issues(m.outs, mid, m.mid)
    decreases |opp|, left
  {
    hide SideInv, Issues, Crosses;
    var m := Match(MapForm, opp, inc, left, mid);
    if Stops(opp, inc, left) {
      PlainIssues([], mid);
    } else {
      var s := FillFront(MapForm, opp, inc, left, mid);
      FirstRests(inc, opp, nextId);
      FillIssues(inc, opp[0].(remaining := opp[0].remaining - Min(left, opp[0].remaining)), Min(left, opp[0].remaining),
                 s.left, mid);
      FillShrinks(MapForm, opp, inc, left, mid);
      ShrinksSide(inc.side.Opposite(), s.rest, opp, nextId);
      MatchIssues(s.rest, inc, s.left, s.mid, nextId);
      IssuesConcat(s.outs, Match(MapForm, s.rest, inc, s.left, s.mid).outs, mid, mid + 1, m.mid);
    }
  }

  lemma FirstRests(inc: Incoming, l: seq<Order>, nextId: OrderId)
    requires SideInv(inc.side.Opposite(), l, nextId) && l != []
    ensures Rests(inc.side.Opposite(), l[0], nextId)
  {
  }

  lemma AddIssues(b: Book, mid: OrderId, req: Request)
    requires BookInv(b) && AddStep(MapForm, b, mid, req).mid <= INVALID_ID
    ensures var s := AddStep(MapForm, b, mid, req); Issues(s.outs, mid, s.mid)
  {
    hide Issues, Match, SideInv, CrossInv, Uncrossed, Settle;
    var inc := NewIncoming(b, req);
    var opp := b.Orders(inc.side.Opposite());
    var m := Match(MapForm, opp, inc, inc.qty, mid);
    MatchIssues(opp, inc, inc.qty, mid, b.nextId);
    var s := AddStep(MapForm, b, mid, req);
    var head, tail := [Private(Notice(inc, Accepted, inc.qty))], AddTail(inc, m.left);
    PlainIssues(head, mid);
    PlainIssues(tail, m.mid);
    MatchMid(opp, inc, inc.qty, mid);
    IssuesConcat(head, m.outs, mid, mid, m.mid);
    IssuesConcat(head + m.outs, tail, mid, m.mid, m.mid);
    assert s.outs == head + m.outs + tail;
  }

  lemma MatchMid(opp: seq<Order>, inc: Incoming, left: Quantity, mid: OrderId)
    ensures mid <= Match(MapForm, opp, inc, left, mid).mid
  {
  }

  lemma ReplaceIssues(b: Book, mid: OrderId, req: Request)
    requires BookInv(b) && ReplaceStep(MapForm, b, mid, req).mid <= INVALID_ID
    ensures var s := ReplaceStep(MapForm, b, mid, req); Issues(s.outs, mid, s.mid)
  {
    hide Issues, Match, SideInv, CrossInv, Uncrossed, Settle, WithoutReplaced;
    var s := ReplaceStep(MapForm, b, mid, req);
    if !ReplaceAccepted(b, req) {
      PlainIssues(s.outs, mid);
      return;
    }
    var inc, m := ReplaceIncoming(b, req), ReplaceMatch(MapForm, b, mid, req);
    var b1 := WithoutReplaced(b, req);
    WithoutInv(b, req);
    MatchIssues(b1.Orders(inc.side.Opposite()), inc, inc.qty, mid, b1.nextId);
    var head, tail := ReplaceHead(b, req), ReplaceTail(MapForm, inc, m.left);
    PlainIssues(head, mid);
    PlainIssues(tail, m.mid);
    MatchMid(b1.Orders(inc.side.Opposite()), inc, inc.qty, mid);
    IssuesConcat(head, m.outs, mid, mid, m.mid);
    IssuesConcat(head + m.outs, tail, mid, m.mid, m.mid);
  }

  lemma StepIssues(b: Book, mid: OrderId, req: Request)
    requires BookInv(b) && Step(MapForm, b, mid, req).mid <= INVALID_ID
    ensures var s := Step(MapForm, b, mid, req); Issues(s.outs, mid, s.mid)
  {
    hide Issues;
    match req.action
    case NewOrder => AddIssues(b, mid, req);
    case CancelOrder => PlainIssues(CancelStep(MapForm, b, mid, req).outs, mid);
    case ModifyOrder => ReplaceIssues(b, mid, req);
  }

  lemma StepMid(f: Flavor, b: Book, mid: OrderId, req: Request)
    ensures mid <= Step(f, b, mid, req).mid
  {
    match req.action
    case NewOrder =>
      var inc := NewIncoming(b, req);
      MatchShrinks(f, b.Orders(inc.side.Opposite()), inc, inc.qty, mid);
    case CancelOrder =>
    case ModifyOrder =>
      if ReplaceAccepted(b, req) {
        var inc := ReplaceIncoming(b, req);
        MatchShrinks(f, WithoutReplaced(b, req).Orders(inc.side.Opposite()), inc, inc.qty, mid);
      }
  }

  /**
   Over every run and across all tickers, ids 1, 2, 3, ... are issued in order, and each appears in
   exactly two executions, on opposite sides with equal quantity and price, and in exactly one trade.
   */
  lemma {:induction false} RunIssues(n: nat, reqs: seq<Request>)
    requires InRange(n, reqs) && FreshRun(MapForm, n, reqs)
    requires Run(MapForm, n, reqs).engine.mid <= INVALID_ID
    ensures var r := Run(MapForm, n, reqs); Issues(r.outs, 1, r.engine.mid)
  {
    hide Issues, BookInv, Step;
    if reqs == [] {
      PlainIssues([], 1);
    } else {
      var r, req := Run(MapForm, n, Init(reqs)), Last(reqs);
      var b := r.engine.books[req.ticker];
      StepMid(MapForm, b, r.engine.mid, req);
      RunIssues(n, Init(reqs));
      RunInv(MapForm, n, Init(reqs), req.ticker);
      StepIssues(b, r.engine.mid, req);
      IssuesConcat(r.outs, Step(MapForm, b, r.engine.mid, req).outs, 1, r.engine.mid,
                   Run(MapForm, n, reqs).engine.mid);
    }
  }
}
