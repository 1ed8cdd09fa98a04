/** The map book and the vector book are the same exchange, up to three named outputs. */
module Equivalence {
  import opened Types
  import opened PriceTime
  import opened Greedy
  import opened EngineRun
  import opened MatchIds

  /** Forgets the trade's match id and the leaves field of a CANCELED response. */
  function Erase(o: Output): Output {
    match o
    case Public(u) => Public(if u.kind == Trade then u.(matchId := INVALID_ID) else u)
    case Private(r) => Private(if r.status == Canceled then r.(leaves := 0) else r)
  }

  function EraseAll(outs: seq<Output>): seq<Output> {
    seq(|outs|, i requires 0 <= i < |outs| => Erase(outs[i]))
  }

  lemma EraseConcat(a: seq<Output>, b: seq<Output>)
    ensures EraseAll(a + b) == EraseAll(a) + EraseAll(b)
  {
  }

  /** The EXECUTED responses: who traded with whom, how much, at what price, under which match id. */
  function Fills(outs: seq<Output>): seq<Response> {
    if outs == [] then []
    else (if outs[0].Private? && outs[0].resp.status == Executed then [outs[0].resp] else []) + Fills(outs[1..])
  }

  lemma {:induction false} FillsConcat(a: seq<Output>, b: seq<Output>)
    ensures Fills(a + b) == Fills(a) + Fills(b)
  {
    if a == [] {
      assert a + b == b;
    } else {
      assert (a + b)[1..] == a[1..] + b;
      FillsConcat(a[1..], b);
    }
  }

  /** Fills survive erasure, so equal erasures have equal fills. */
  lemma {:induction false} ErasedFills(a: seq<Output>, b: seq<Output>)
    requires EraseAll(a) == EraseAll(b)
    ensures Fills(a) == Fills(b)
  {
    assert |a| == |EraseAll(a)| == |EraseAll(b)| == |b|;
    if a != [] {
      assert Erase(a[0]) == EraseAll(a)[0] == EraseAll(b)[0] == Erase(b[0]);
      forall i | 0 <= i < |a| - 1
        ensures Erase(a[1..][i]) == Erase(b[1..][i])
      {
        assert EraseAll(a)[i + 1] == EraseAll(b)[i + 1];
      }
      ErasedFills(a[1..], b[1..]);
    }
  }

  lemma {:induction false} MatchAgrees(opp: seq<Order>, inc: Incoming, left: Quantity, mid: OrderId)
    ensures var m, v := Match(MapForm, opp, inc, left, mid), Match(VectorForm, opp, inc, left, mid);
            m.rest == v.rest && m.left == v.left && m.mid == v.mid && EraseAll(m.outs) == EraseAll(v.outs)
    decreases |opp|, left
  {
    if !Stops(opp, inc, left) {
      var s, w := FillFront(MapForm, opp, inc, left, mid), FillFront(VectorForm, opp, inc, left, mid);
      MatchAgrees(s.rest, inc, s.left, s.mid);
      EraseConcat(s.outs, Match(MapForm, s.rest, inc, s.left, s.mid).outs);
      EraseConcat(w.outs, Match(VectorForm, s.rest, inc, s.left, s.mid).outs);
      assert EraseAll(s.outs) == EraseAll(w.outs);
    }
  }

  /** A fill-and-kill replacement that cannot be filled completely; only the map book announces its end. */
  predicate Unannounced(b: Book, req: Request) {
    && req.action == ModifyOrder && ReplaceAccepted(b, req) && req.otype.FillAndKill?
    && ReplaceLiquidity(b, req) < req.qty
  }

  function Extra(b: Book, req: Request): nat {
    if Unannounced(b, req) then 2 else 0
  }

  lemma AddAgrees(b: Book, mid: OrderId, req: Request)
    ensures var m, v := AddStep(MapForm, b, mid, req), AddStep(VectorForm, b, mid, req);
            m.book == v.book && m.mid == v.mid && EraseAll(m.outs) == EraseAll(v.outs)
  {
    hide Match, Settle;
    var inc := NewIncoming(b, req);
    var opp := b.Orders(inc.side.Opposite());
    MatchAgrees(opp, inc, inc.qty, mid);
    var m, v := Match(MapForm, opp, inc, inc.qty, mid), Match(VectorForm, opp, inc, inc.qty, mid);
    var outs := AddStep(MapForm, b, mid, req).outs;
    var head, tail := [Private(Notice(inc, Accepted, inc.qty))], AddTail(inc, m.left);
    EraseConcat(head + m.outs, tail);
    EraseConcat(head, m.outs);
    EraseConcat(head + v.outs, tail);
    EraseConcat(head, v.outs);
    assert outs == head + m.outs + tail;
    assert AddStep(VectorForm, b, mid, req).outs == head + v.outs + tail;
  }

  /** What the two replace steps have in common: everything up to the map book's extra messages. */
  lemma ReplaceAgrees(b: Book, mid: OrderId, req: Request)
    requires req.action == ModifyOrder
    ensures var m, v := ReplaceStep(MapForm, b, mid, req), ReplaceStep(VectorForm, b, mid, req);
            && m.book == v.book && m.mid == v.mid && |m.outs| == |v.outs| + Extra(b, req)
            && EraseAll(m.outs[..|v.outs|]) == EraseAll(v.outs) && Fills(m.outs[|v.outs|..]) == []
  {
    hide Match, Settle, WithoutReplaced, Liquidity;
    if ReplaceAccepted(b, req) {
      var inc := ReplaceIncoming(b, req);
      MatchAgrees(WithoutReplaced(b, req).Orders(inc.side.Opposite()), inc, inc.qty, mid);
      MatchTotal(MapForm, WithoutReplaced(b, req).Orders(inc.side.Opposite()), inc, inc.qty, mid);
      var m, v := ReplaceMatch(MapForm, b, mid, req), ReplaceMatch(VectorForm, b, mid, req);
      var head, tail := ReplaceHead(b, req), ReplaceTail(MapForm, inc, m.left);
      EraseConcat(head, m.outs);
      EraseConcat(head, v.outs);
      assert |m.outs| == |EraseAll(m.outs)| == |v.outs|;
      var outs := ReplaceStep(MapForm, b, mid, req).outs;
      assert outs[..|head + v.outs|] == head + m.outs && outs[|head + v.outs|..] == tail;
      assert tail != [] ==> Fills(tail[1..]) == [];
      assert ReplaceStep(VectorForm, b, mid, req).outs == head + v.outs;
    } else {
      var outs := ReplaceStep(MapForm, b, mid, req).outs;
      assert outs[..1] == outs;
    }
  }

  /** One request: same book, same match counter, same fills, and equal messages up to erasure. */
  lemma StepAgrees(b: Book, mid: OrderId, req: Request)
    ensures var m, v := Step(MapForm, b, mid, req), Step(VectorForm, b, mid, req);
            && m.book == v.book && m.mid == v.mid && |m.outs| == |v.outs| + Extra(b, req)
            && EraseAll(m.outs[..|v.outs|]) == EraseAll(v.outs) && Fills(m.outs) == Fills(v.outs)
  {
    hide AddStep, ReplaceStep, ReplaceLiquidity;
    var m, v := Step(MapForm, b, mid, req), Step(VectorForm, b, mid, req);
    match req.action {
      case NewOrder => AddAgrees(b, mid, req);
      case CancelOrder =>
      case ModifyOrder => ReplaceAgrees(b, mid, req);
    }
    if req.action != ModifyOrder {
      assert |m.outs| == |EraseAll(m.outs)| == |EraseAll(v.outs)| == |v.outs|;
      assert m.outs[..|v.outs|] == m.outs;
      ErasedFills(m.outs, v.outs);
    } else {
      ErasedFills(m.outs[..|v.outs|], v.outs);
      FillsConcat(m.outs[..|v.outs|], m.outs[|v.outs|..]);
      assert m.outs == m.outs[..|v.outs|] + m.outs[|v.outs|..];
    }
  }

  /** How many messages the vector engine leaves out over a run. */
  function ExtraOf(n: nat, reqs: seq<Request>): nat
    requires InRange(n, reqs)
  {
    if reqs == [] then 0
    else
      var e := Run(MapForm, n, Init(reqs)).engine;
      ExtraOf(n, Init(reqs)) + Extra(e.books[Last(reqs).ticker], Last(reqs))
  }

  /**
   Over every run the two engines hold the same books, have issued the same match ids and have sent the
   same fills. Up to erasure their messages agree exactly when every fill-and-kill replacement found
   enough liquidity.
   */
  lemma {:induction false} RunAgrees(n: nat, reqs: seq<Request>)
    requires InRange(n, reqs)
    ensures var m, v := Run(MapForm, n, reqs), Run(VectorForm, n, reqs);
            && m.engine == v.engine && Fills(m.outs) == Fills(v.outs)
            && (EraseAll(m.outs) == EraseAll(v.outs) <==> ExtraOf(n, reqs) == 0)
            && |m.outs| == |v.outs| + ExtraOf(n, reqs)
  {
    hide Step, Extra, Erase;
    var m, v := Run(MapForm, n, reqs), Run(VectorForm, n, reqs);
    if reqs != [] {
      RunAgrees(n, Init(reqs));
      var m0, v0, req := Run(MapForm, n, Init(reqs)), Run(VectorForm, n, Init(reqs)), Last(reqs);
      var b := m0.engine.books[req.ticker];
      StepAgrees(b, m0.engine.mid, req);
      var s, w := Step(MapForm, b, m0.engine.mid, req), Step(VectorForm, b, m0.engine.mid, req);
      FillsConcat(m0.outs, s.outs);
      FillsConcat(v0.outs, w.outs);
      EraseConcat(m0.outs, s.outs);
      EraseConcat(v0.outs, w.outs);
      assert |s.outs| == |w.outs| ==> s.outs[..|w.outs|] == s.outs;
    }
    assert |EraseAll(m.outs)| == |m.outs| && |EraseAll(v.outs)| == |v.outs|;
  }

  // ---------------------------------------------------------------- when nothing at all differs

  /**
   The requests to which both books send exactly the same messages: nothing trades, a cancel takes half of
   the order (so that what was canceled is what is left), and no fill-and-kill replacement is accepted.
   */
  predicate Identical(b: Book, req: Request) {
    match req.action
    case NewOrder =>
      Stops(b.Orders(req.side.Opposite()), NewIncoming(b, req), req.qty)
    case CancelOrder =>
      Present(b, req.client, req.coid) && CancelQty(req, Replaced(b, req)) <= Replaced(b, req).remaining ==>
        2 * CancelQty(req, Replaced(b, req)) == Replaced(b, req).remaining
    case ModifyOrder =>
      ReplaceAccepted(b, req) ==>
        var inc := ReplaceIncoming(b, req);
        req.otype.GoodTillCancel? && Stops(WithoutReplaced(b, req).Orders(inc.side.Opposite()), inc, req.qty)
  }

  /** The first trade already differs: only the map book's carries the match id. */
  lemma TradesDiffer(opp: seq<Order>, inc: Incoming, mid: OrderId, head: seq<Output>, m: seq<Output>, v: seq<Output>)
    requires mid != INVALID_ID && !Stops(opp, inc, inc.qty)
    ensures head + Match(MapForm, opp, inc, inc.qty, mid).outs + m !=
            head + Match(VectorForm, opp, inc, inc.qty, mid).outs + v
  {
    var x := head + Match(MapForm, opp, inc, inc.qty, mid).outs + m;
    var y := head + Match(VectorForm, opp, inc, inc.qty, mid).outs + v;
    assert x[|head| + 2].upd.matchId == mid && y[|head| + 2].upd.matchId == INVALID_ID;
  }

  lemma AddIdentical(b: Book, mid: OrderId, req: Request)
    requires mid != INVALID_ID && req.action == NewOrder
    ensures AddStep(MapForm, b, mid, req).outs == AddStep(VectorForm, b, mid, req).outs <==> Identical(b, req)
  {
    var inc := NewIncoming(b, req);
    var opp, head := b.Orders(inc.side.Opposite()), [Private(Notice(inc, Accepted, inc.qty))];
    if !Stops(opp, inc, inc.qty) {
      TradesDiffer(opp, inc, mid, head, AddTail(inc, Match(MapForm, opp, inc, inc.qty, mid).left),
                   AddTail(inc, Match(VectorForm, opp, inc, inc.qty, mid).left));
    }
  }

  lemma CancelIdentical(b: Book, mid: OrderId, req: Request)
    requires req.action == CancelOrder
    ensures CancelStep(MapForm, b, mid, req).outs == CancelStep(VectorForm, b, mid, req).outs <==> Identical(b, req)
  {
    var m, v := CancelStep(MapForm, b, mid, req).outs, CancelStep(VectorForm, b, mid, req).outs;
    if Present(b, req.client, req.coid) && CancelQty(req, Replaced(b, req)) <= Replaced(b, req).remaining {
      assert m[1].resp.leaves == CancelQty(req, Replaced(b, req));
      assert v[1].resp.leaves == Replaced(b, req).remaining - CancelQty(req, Replaced(b, req));
    }
  }

  lemma ReplaceIdentical(b: Book, mid: OrderId, req: Request)
    requires mid != INVALID_ID && req.action == ModifyOrder
    ensures ReplaceStep(MapForm, b, mid, req).outs == ReplaceStep(VectorForm, b, mid, req).outs <==> Identical(b, req)
  {
    hide WithoutReplaced, Settle;
    if ReplaceAccepted(b, req) {
      var inc := ReplaceIncoming(b, req);
      var opp := WithoutReplaced(b, req).Orders(inc.side.Opposite());
      var m, v := ReplaceMatch(MapForm, b, mid, req), ReplaceMatch(VectorForm, b, mid, req);
      if !Stops(opp, inc, inc.qty) {
        TradesDiffer(opp, inc, mid, ReplaceHead(b, req), ReplaceTail(MapForm, inc, m.left),
                     ReplaceTail(VectorForm, inc, v.left));
      } else {
        assert |ReplaceStep(MapForm, b, mid, req).outs| == 2 + |ReplaceTail(MapForm, inc, inc.qty)|;
        assert |ReplaceStep(VectorForm, b, mid, req).outs| == 2;
      }
    }
  }

  lemma StepIdentical(b: Book, mid: OrderId, req: Request)
    requires mid != INVALID_ID
    ensures Step(MapForm, b, mid, req).outs == Step(VectorForm, b, mid, req).outs <==> Identical(b, req)
  {
    match req.action
    case NewOrder => AddIdentical(b, mid, req);
    case CancelOrder => CancelIdentical(b, mid, req);
    case ModifyOrder => ReplaceIdentical(b, mid, req);
  }

  ghost predicate IdenticalRun(n: nat, reqs: seq<Request>)
    requires InRange(n, reqs)
  {
    reqs != [] ==>
      IdenticalRun(n, Init(reqs)) && Identical(Run(MapForm, n, Init(reqs)).engine.books[Last(reqs).ticker], Last(reqs))
  }

  lemma SplitEqual(a: seq<Output>, a': seq<Output>, b: seq<Output>, b': seq<Output>)
    requires |a| >= |b| && |a'| >= |b'|
    ensures a + a' == b + b' <==> a == b && a' == b'
  {
    if a + a' == b + b' {
      assert |a + a'| == |b + b'|;
      assert a == (a + a')[..|a|] && b == (b + b')[..|b|] && a' == (a + a')[|a|..] && b' == (b + b')[|b|..];
    }
  }

  /** The two engines send exactly the same messages over a run if and only if they do so for every request. */
  lemma {:induction false} RunIdentical(n: nat, reqs: seq<Request>)
    requires InRange(n, reqs) && Run(MapForm, n, reqs).engine.mid < INVALID_ID
    ensures Run(MapForm, n, reqs).outs == Run(VectorForm, n, reqs).outs <==> IdenticalRun(n, reqs)
  {
    hide Step, Extra, Identical, EraseAll, Fills;
    if reqs != [] {
      var m, v, req := Run(MapForm, n, Init(reqs)), Run(VectorForm, n, Init(reqs)), Last(reqs);
      var b := m.engine.books[req.ticker];
      StepMid(MapForm, b, m.engine.mid, req);
      RunIdentical(n, Init(reqs));
      RunAgrees(n, Init(reqs));
      StepAgrees(b, m.engine.mid, req);
      StepIdentical(b, m.engine.mid, req);
      SplitEqual(m.outs, Step(MapForm, b, m.engine.mid, req).outs, v.outs, Step(VectorForm, b, m.engine.mid, req).outs);
    }
  }
}
