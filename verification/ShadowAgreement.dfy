/** Exactly which requests keep the shadow book equal to the engine's book, over whole runs. */
module ShadowAgreement {
  import opened Types
  import opened PriceTime
  import opened BookInvariants
  import opened Greedy
  import opened EngineRun
  import opened ShadowBook
  import opened Conservation

  // ---------------------------------------------------------------- the condition

  /** An accepted cancel that leaves part of the order resting. */
  predicate PartialCancel(b: Book, req: Request) {
    && req.action == CancelOrder && Present(b, req.client, req.coid)
    && CancelQty(req, Replaced(b, req)) < Replaced(b, req).remaining
  }

  /**
   The requests after which the public updates still tell the whole truth. It can be decided from the
   book and the request before the request is processed.
   */
  predicate Faithful(f: Flavor, b: Book, req: Request) {
    && !PartialCancel(b, req)
    && (req.action == ModifyOrder && ReplaceAccepted(b, req) ==>
          if req.otype.GoodTillCancel? then ReplaceLiquidity(b, req) == 0
          else f.MapForm? && ReplaceLiquidity(b, req) < req.qty)
  }

  // ---------------------------------------------------------------- one request

  lemma AddAgrees(f: Flavor, s: Shadow, b: Book, mid: OrderId, req: Request)
    requires BookInv(b) && Agrees(s, b) && !Present(b, req.client, req.coid)
    ensures var r := AddStep(f, b, mid, req);
            Agrees(ApplyAll(s, Updates(r.outs)), r.book) && TradesKnown(s, Updates(r.outs))
  {
    hide Agrees, BookInv, Match, PriceTime.Insert;
    var inc, b0 := NewIncoming(b, req), b.(nextId := b.nextId + 1);
    var side := inc.side.Opposite();
    BumpAgrees(s, b);
    MatchAgrees(f, s, b0, inc, inc.qty, mid);
    var m := Match(f, b0.Orders(side), inc, inc.qty, mid);
    var r, s1, b1 := AddStep(f, b, mid, req), ApplyAll(s, Updates(m.outs)), b0.With(side, m.rest);
    AddUpdates(f, b, mid, req);
    if m.left > 0 && inc.otype.GoodTillCancel? {
      var u := PlainUpdate(inc.ticker, inc.moid, Add, inc.side, inc.price, m.left, INVALID_ID);
      ApplyConcat(s, Updates(m.outs), [u]);
      ApplyOne(s1, u);
      assert Updates(AddTail(inc, m.left)) == [u] by {
        assert AddTail(inc, m.left)[1..] == [];
      }
      MatchKeepsIds(f, s, b, inc, inc.qty, mid);
      AgreesInsert(s1, b1, Resting(inc, m.left), u);
    } else {
      assert Updates(m.outs) + [] == Updates(m.outs);
    }
  }

  lemma BumpAgrees(s: Shadow, b: Book)
    requires BookInv(b) && Agrees(s, b)
    ensures BookInv(b.(nextId := b.nextId + 1)) && Agrees(s, b.(nextId := b.nextId + 1))
  {
  }

  /** Trades introduce no id, so the id about to be used is still unknown after them. */
  lemma MatchKeepsIds(f: Flavor, s: Shadow, b: Book, inc: Incoming, left: Quantity, mid: OrderId)
    requires BookInv(b) && Agrees(s, b)
    ensures b.nextId !in ApplyAll(s, Updates(Match(f, b.Orders(inc.side.Opposite()), inc, left, mid).outs))
  {
    AgreesBelow(s, b);
    TradesShrink(f, s, b.Orders(inc.side.Opposite()), inc, left, mid);
  }

  lemma {:induction false} TradesShrink(f: Flavor, s: Shadow, opp: seq<Order>, inc: Incoming, left: Quantity,
                                        mid: OrderId)
    ensures ApplyAll(s, Updates(Match(f, opp, inc, left, mid).outs)).Keys <= s.Keys
    decreases |opp|, left
  {
    if !Stops(opp, inc, left) {
      var r, u := FillFront(f, opp, inc, left, mid), TradeOf(f, opp, inc, left, mid);
      var rest := Match(f, r.rest, inc, r.left, r.mid);
      FillUpdates(f, opp, inc, left, mid);
      UpdatesConcat(r.outs, rest.outs);
      ApplyConcat(s, [u], Updates(rest.outs));
      ApplyOne(s, u);
      TradesShrink(f, Apply(s, u), r.rest, inc, r.left, r.mid);
    }
  }

  lemma OnlyPrivate(r: Response)
    ensures Updates([Private(r)]) == []
  {
  }

  lemma AddUpdates(f: Flavor, b: Book, mid: OrderId, req: Request)
    ensures var inc := NewIncoming(b, req);
            var m := Match(f, b.Orders(inc.side.Opposite()), inc, inc.qty, mid);
            Updates(AddStep(f, b, mid, req).outs) == Updates(m.outs) + Updates(AddTail(inc, m.left))
  {
    hide Match, Updates;
    var inc := NewIncoming(b, req);
    var m := Match(f, b.Orders(inc.side.Opposite()), inc, inc.qty, mid);
    var head := [Private(Notice(inc, Accepted, inc.qty))];
    UpdatesConcat(head + m.outs, AddTail(inc, m.left));
    UpdatesConcat(head, m.outs);
    OnlyPrivate(Notice(inc, Accepted, inc.qty));
  }

  lemma CancelAgrees(f: Flavor, s: Shadow, b: Book, mid: OrderId, req: Request)
    requires BookInv(b) && Agrees(s, b) && req.action == CancelOrder
    ensures var r := CancelStep(f, b, mid, req);
            && (Agrees(ApplyAll(s, Updates(r.outs)), r.book) <==> !PartialCancel(b, req))
            && TradesKnown(s, Updates(r.outs))
  {
    hide Agrees, BookInv;
    var r := CancelStep(f, b, mid, req);
    if Present(b, req.client, req.coid) {
      var side := SideOf(b, req.client, req.coid);
      var l := b.Orders(side);
      var k := Find(l, req.client, req.coid);
      var canceled := CancelQty(req, l[k]);
      if canceled <= l[k].remaining {
        var u := CancelUpdate(req, l[k], canceled);
        assert Updates(r.outs) == [u] + Updates(r.outs[1..]);
        assert Updates(r.outs[1..]) == [];
        ApplyOne(s, u);
        AgreesRemove(s, b, side, k);
        if canceled < l[k].remaining {
          MissingOrder(s - {l[k].moid}, r.book, side, k);
        }
      } else {
        assert Updates(r.outs) == [];
      }
    } else {
      assert Updates(r.outs) == [];
    }
  }

  lemma MissingOrder(s: Shadow, b: Book, side: Side, k: nat)
    requires k < |b.Orders(side)| && b.Orders(side)[k].moid !in s
    ensures !Agrees(s, b)
  {
  }

  // ---------------------------------------------------------------- replace

  /** An entry no trade refers to rides along unchanged. */
  lemma {:induction false} RidesAlong(f: Flavor, s: Shadow, opp: seq<Order>, inc: Incoming, left: Quantity,
                                      mid: OrderId,
                                      id: OrderId, u: Update)
    requires forall i :: 0 <= i < |opp| ==> opp[i].moid != id
    ensures var us := Updates(Match(f, opp, inc, left, mid).outs);
            && ApplyAll(s[id := u], us) == ApplyAll(s, us)[id := u]
            && (TradesKnown(s, us) ==> TradesKnown(s[id := u], us))
    decreases |opp|, left
  {
    hide Apply, FillOutputs, Crosses;
    if Stops(opp, inc, left) {
      NoUpdates(s, s[id := u]);
    } else {
      var r, v := FillFront(f, opp, inc, left, mid), TradeOf(f, opp, inc, left, mid);
      var rest := Match(f, r.rest, inc, r.left, r.mid);
      FillUpdates(f, opp, inc, left, mid);
      UpdatesConcat(r.outs, rest.outs);
      ApplyConcat(s, [v], Updates(rest.outs));
      ApplyOne(s, v);
      ApplyConcat(s[id := u], [v], Updates(rest.outs));
      ApplyOne(s[id := u], v);
      TradeRides(s, v, id, u);
      assert forall i :: 0 <= i < |r.rest| ==> r.rest[i].moid != id;
      RidesAlong(f, Apply(s, v), r.rest, inc, r.left, r.mid, id, u);
    }
  }

  lemma NoUpdates(s: Shadow, t: Shadow)
    ensures Updates([]) == [] && ApplyAll(s, []) == s && ApplyAll(t, []) == t && TradesKnown(t, [])
  {
  }

  lemma TradeRides(s: Shadow, v: Update, id: OrderId, u: Update)
    requires v.kind == Trade && v.moid != id
    ensures Apply(s[id := u], v) == Apply(s, v)[id := u]
  {
  }

  /** The shadow entry a replacement creates: always its full quantity. */
  function Announced(b: Book, req: Request): Update
    requires Present(b, req.client, req.coid)
  {
    var inc := ReplaceIncoming(b, req);
    PlainUpdate(inc.ticker, inc.moid, Modify, inc.side, inc.price, inc.qty, INVALID_ID)
  }

  function CancelOf(f: Flavor, inc: Incoming, left: Quantity): seq<Update> {
    if left == 0 || inc.otype.GoodTillCancel? || f.VectorForm? then []
    else [PlainUpdate(inc.ticker, inc.moid, Cancel, inc.side, inc.price, left, INVALID_ID)]
  }

  lemma ReplaceUpdates(f: Flavor, b: Book, mid: OrderId, req: Request)
    requires ReplaceAccepted(b, req)
    ensures var inc, m := ReplaceIncoming(b, req), ReplaceMatch(f, b, mid, req);
            var u := PlainUpdate(inc.ticker, Replaced(b, req).moid, Modify, inc.side, inc.price, inc.qty, inc.moid);
            Updates(ReplaceStep(f, b, mid, req).outs) == [u] + Updates(m.outs) + CancelOf(f, inc, m.left)
  {
    hide Match, Find, WithoutReplaced;
    var inc, m := ReplaceIncoming(b, req), ReplaceMatch(f, b, mid, req);
    var head, tail := ReplaceHead(b, req), ReplaceTail(f, inc, m.left);
    UpdatesConcat(head + m.outs, tail);
    UpdatesConcat(head, m.outs);
    assert head[1..] == [head[1]] && [head[1]][1..] == [];
    if tail != [] {
      assert tail[1..] == [tail[1]] && [tail[1]][1..] == [];
    }
  }

  /** What an accepted replace does to any shadow book: the others' trades, and the announced entry on top. */
  lemma ReplaceApplies(f: Flavor, s: Shadow, b: Book, mid: OrderId, req: Request)
    requires BookInv(b) && ReplaceAccepted(b, req)
    ensures var inc, m := ReplaceIncoming(b, req), ReplaceMatch(f, b, mid, req);
            var us, s0 := Updates(ReplaceStep(f, b, mid, req).outs), s - {Replaced(b, req).moid};
            var s1 := ApplyAll(s0, Updates(m.outs))[b.nextId := Announced(b, req)];
            && ApplyAll(s, us) == (if CancelOf(f, inc, m.left) == [] then s1 else s1 - {b.nextId})
            && (TradesKnown(s0, Updates(m.outs)) ==> TradesKnown(s, us))
  {
    hide BookInv, Match, Find, WithoutReplaced, ApplyAll, TradesKnown;
    var inc, m := ReplaceIncoming(b, req), ReplaceMatch(f, b, mid, req);
    var u := PlainUpdate(inc.ticker, Replaced(b, req).moid, Modify, inc.side, inc.price, inc.qty, inc.moid);
    var s0, a := s - {u.moid}, Announced(b, req);
    WithoutInv(b, req);
    assert forall i :: 0 <= i < |WithoutReplaced(b, req).Orders(inc.side.Opposite())| ==>
      WithoutReplaced(b, req).Orders(inc.side.Opposite())[i].moid != b.nextId;
    RidesAlong(f, s0, WithoutReplaced(b, req).Orders(inc.side.Opposite()), inc, inc.qty, mid, b.nextId, a);
    ReplaceUpdates(f, b, mid, req);
    assert Apply(s, u) == s0[b.nextId := a];
    ApplyOne(s, u);
    ApplyConcat(s, [u], Updates(m.outs));
    ApplyConcat(s, [u] + Updates(m.outs), CancelOf(f, inc, m.left));
    if CancelOf(f, inc, m.left) == [] {
      assert [u] + Updates(m.outs) + [] == [u] + Updates(m.outs);
    } else {
      ApplyOne(ApplyAll(s0, Updates(m.outs))[b.nextId := a], CancelOf(f, inc, m.left)[0]);
    }
  }

  /** The shadow book after an accepted replace: the faithful book of the others, plus the announced entry. */
  lemma ReplaceShadow(f: Flavor, s: Shadow, b: Book, mid: OrderId, req: Request) returns (s2: Shadow)
    requires BookInv(b) && Agrees(s, b) && ReplaceAccepted(b, req)
    ensures var inc, m, b1 := ReplaceIncoming(b, req), ReplaceMatch(f, b, mid, req), WithoutReplaced(b, req);
            var us := Updates(ReplaceStep(f, b, mid, req).outs);
            && b.nextId !in s2 && Agrees(s2, b1.With(inc.side.Opposite(), m.rest))
            && ApplyAll(s, us) == (if CancelOf(f, inc, m.left) == [] then s2[b.nextId := Announced(b, req)] else s2)
            && TradesKnown(s, us)
  {
    hide Agrees, BookInv, Match, Find, WithoutReplaced, ApplyAll, TradesKnown;
    var inc, m, b1 := ReplaceIncoming(b, req), ReplaceMatch(f, b, mid, req), WithoutReplaced(b, req);
    var s0 := s - {Replaced(b, req).moid};
    WithoutAgrees(s, b, req);
    MatchAgrees(f, s0, b1, inc, inc.qty, mid);
    s2 := ApplyAll(s0, Updates(m.outs));
    TradesShrink(f, s0, b1.Orders(inc.side.Opposite()), inc, inc.qty, mid);
    AgreesBelow(s, b);
    ReplaceApplies(f, s, b, mid, req);
    assert s2[b.nextId := Announced(b, req)] - {b.nextId} == s2;
  }

  lemma WithoutAgrees(s: Shadow, b: Book, req: Request)
    requires BookInv(b) && Agrees(s, b) && Present(b, req.client, req.coid)
    ensures var b1 := WithoutReplaced(b, req);
            BookInv(b1) && Agrees(s - {Replaced(b, req).moid}, b1)
  {
    var side := SideOf(b, req.client, req.coid);
    var k := Find(b.Orders(side), req.client, req.coid);
    AgreesRemove(s, b, side, k);
    RemoveInv(b, side, k);
    BumpAgrees(s - {Replaced(b, req).moid}, b.With(side, Remove(b.Orders(side), k)));
    WithoutInv(b, req);
  }

  lemma ReplaceAgrees(f: Flavor, s: Shadow, b: Book, mid: OrderId, req: Request)
    requires BookInv(b) && Agrees(s, b) && req.action == ModifyOrder
    ensures var r := ReplaceStep(f, b, mid, req);
            && (Agrees(ApplyAll(s, Updates(r.outs)), r.book) <==> Faithful(f, b, req))
            && TradesKnown(s, Updates(r.outs))
  {
    hide Agrees, BookInv, Match, Find, WithoutReplaced, PriceTime.Insert, Liquidity;
    var r := ReplaceStep(f, b, mid, req);
    if !ReplaceAccepted(b, req) {
      assert Updates(r.outs) == [];
      return;
    }
    var s2 := ReplaceShadow(f, s, b, mid, req);
    var inc, m, b1 := ReplaceIncoming(b, req), ReplaceMatch(f, b, mid, req), WithoutReplaced(b, req);
    var b2 := b1.With(inc.side.Opposite(), m.rest);
    MatchTotal(f, b1.Orders(inc.side.Opposite()), inc, inc.qty, mid);
    if m.left > 0 && inc.otype.GoodTillCancel? {
      AgreesInsert(s2, b2, Resting(inc, m.left), Announced(b, req));
    } else if CancelOf(f, inc, m.left) == [] {
      AgreesExtra(s2, b2, b.nextId, Announced(b, req));
    }
  }

  /** From agreement, a request preserves agreement if and only if it is faithful. */
  lemma StepAgrees(f: Flavor, s: Shadow, b: Book, mid: OrderId, req: Request)
    requires BookInv(b) && Agrees(s, b) && Fresh(b, req)
    ensures var r := Step(f, b, mid, req);
            && (Agrees(ApplyAll(s, Updates(r.outs)), r.book) <==> Faithful(f, b, req))
            && TradesKnown(s, Updates(r.outs))
  {
    match req.action
    case NewOrder => AddAgrees(f, s, b, mid, req);
    case CancelOrder => CancelAgrees(f, s, b, mid, req);
    case ModifyOrder => ReplaceAgrees(f, s, b, mid, req);
  }

  // ---------------------------------------------------------------- whole runs

  /** The updates that concern ticker t. */
  function Seen(t: TickerId, us: seq<Update>): seq<Update> {
    if us == [] then [] else (if us[0].ticker == t then [us[0]] else []) + Seen(t, us[1..])
  }

  lemma {:induction false} SeenConcat(t: TickerId, a: seq<Update>, b: seq<Update>)
    ensures Seen(t, a + b) == Seen(t, a) + Seen(t, b)
  {
    if a == [] {
      assert a + b == b;
    } else {
      assert (a + b)[1..] == a[1..] + b && (a + b)[0] == a[0];
      SeenConcat(t, a[1..], b);
      var head := if a[0].ticker == t then [a[0]] else [];
      assert head + (Seen(t, a[1..]) + Seen(t, b)) == head + Seen(t, a[1..]) + Seen(t, b);
    }
  }

  lemma {:induction false} SeenAll(t: TickerId, t': TickerId, outs: seq<Output>)
    requires AllOf(outs, t')
    ensures Seen(t, Updates(outs)) == if t == t' then Updates(outs) else []
  {
    if outs != [] {
      assert (if outs[0].Private? then outs[0].resp.ticker else outs[0].upd.ticker) == t';
      SeenAll(t, t', outs[1..]);
      SeenConcat(t, AsUpdate(outs[0]), Updates(outs[1..]));
      if outs[0].Public? {
        assert [outs[0].upd][1..] == [];
      }
    }
  }

  /** The shadow book of ticker t after a run. */
  function ShadowOf(f: Flavor, n: nat, reqs: seq<Request>, t: TickerId): Shadow
    requires InRange(n, reqs)
  {
    ApplyAll(map[], Seen(t, Updates(Run(f, n, reqs).outs)))
  }

  /** A request moves the shadow book of its own ticker, by its own updates, and no other. */
  lemma ShadowStep(f: Flavor, n: nat, reqs: seq<Request>, t: TickerId)
    requires InRange(n, reqs) && reqs != [] && t < n
    ensures var e := Run(f, n, Init(reqs)).engine;
            var us := Updates(Step(f, e.books[Last(reqs).ticker], e.mid, Last(reqs)).outs);
            var seen := Seen(t, Updates(Run(f, n, Init(reqs)).outs));
            && (ShadowOf(f, n, reqs, t) ==
                var s := ShadowOf(f, n, Init(reqs), t); if Last(reqs).ticker == t then ApplyAll(s, us) else s)
            && (TradesKnown(map[], Seen(t, Updates(Run(f, n, reqs).outs))) <==>
                TradesKnown(map[], seen) && (Last(reqs).ticker == t ==> TradesKnown(ShadowOf(f, n, Init(reqs), t), us)))
  {
    hide Step, ApplyAll, TradesKnown;
    var r, req := Run(f, n, Init(reqs)), Last(reqs);
    var s := Step(f, r.engine.books[req.ticker], r.engine.mid, req);
    UpdatesConcat(r.outs, s.outs);
    SeenConcat(t, Updates(r.outs), Updates(s.outs));
    StepTicker(f, r.engine.books[req.ticker], r.engine.mid, req);
    SeenAll(t, req.ticker, s.outs);
    ApplyConcat(map[], Seen(t, Updates(r.outs)), Seen(t, Updates(s.outs)));
    if req.ticker != t {
      assert Seen(t, Updates(r.outs)) + [] == Seen(t, Updates(r.outs));
      ApplyNothing(ShadowOf(f, n, Init(reqs), t));
    }
  }

  lemma ApplyNothing(s: Shadow)
    ensures ApplyAll(s, []) == s && TradesKnown(s, [])
  {
  }

  /** Every ticker's shadow book equals its order book, at every request boundary of the run. */
  ghost predicate AgreesThroughout(f: Flavor, n: nat, reqs: seq<Request>)
    requires InRange(n, reqs)
  {
    && (reqs != [] ==> AgreesThroughout(f, n, Init(reqs)))
    && (forall t :: 0 <= t < n ==> Agrees(ShadowOf(f, n, reqs, t), Run(f, n, reqs).engine.books[t]))
  }

  ghost predicate FaithfulRun(f: Flavor, n: nat, reqs: seq<Request>)
    requires InRange(n, reqs)
  {
    reqs != [] ==>
      FaithfulRun(f, n, Init(reqs)) && Faithful(f, Run(f, n, Init(reqs)).engine.books[Last(reqs).ticker], Last(reqs))
  }

  lemma BootAgrees(f: Flavor, n: nat, t: TickerId)
    requires t < n
    ensures Agrees(ShadowOf(f, n, [], t), Run(f, n, []).engine.books[t])
  {
  }

  /** The shadow books agree with the engine throughout a run if and only if every request was faithful. */
  lemma {:induction false} RunAgrees(f: Flavor, n: nat, reqs: seq<Request>)
    requires InRange(n, reqs) && FreshRun(f, n, reqs)
    ensures AgreesThroughout(f, n, reqs) <==> FaithfulRun(f, n, reqs)
    ensures FaithfulRun(f, n, reqs) ==>
      forall t :: 0 <= t < n ==> TradesKnown(map[], Seen(t, Updates(Run(f, n, reqs).outs)))
  {
    hide Step, Agrees, Faithful, BookInv, ShadowOf, TradesKnown, Fresh;
    if reqs == [] {
      forall t | 0 <= t < n
        ensures Agrees(ShadowOf(f, n, reqs, t), Run(f, n, reqs).engine.books[t])
      {
        BootAgrees(f, n, t);
      }
      ApplyNothing(map[]);
    } else {
      RunAgrees(f, n, Init(reqs));
      if FaithfulRun(f, n, Init(reqs)) {
        RunAgreesStep(f, n, reqs);
      }
    }
  }

  lemma RunAgreesStep(f: Flavor, n: nat, reqs: seq<Request>)
    requires InRange(n, reqs) && FreshRun(f, n, reqs) && reqs != []
    requires AgreesThroughout(f, n, Init(reqs))
    requires forall t :: 0 <= t < n ==> TradesKnown(map[], Seen(t, Updates(Run(f, n, Init(reqs)).outs)))
    ensures var e, req := Run(f, n, Init(reqs)).engine, Last(reqs);
            (forall t :: 0 <= t < n ==> Agrees(ShadowOf(f, n, reqs, t), Run(f, n, reqs).engine.books[t])) <==>
            Faithful(f, e.books[req.ticker], req)
    ensures forall t :: 0 <= t < n ==> TradesKnown(map[], Seen(t, Updates(Run(f, n, reqs).outs)))
  {
    hide Step, Agrees, Faithful, BookInv, ShadowOf, TradesKnown;
    var e, req := Run(f, n, Init(reqs)).engine, Last(reqs);
    RunInv(f, n, Init(reqs), req.ticker);
    StepAgrees(f, ShadowOf(f, n, Init(reqs), req.ticker), e.books[req.ticker], e.mid, req);
    forall t | 0 <= t < n
      ensures t != req.ticker ==> Agrees(ShadowOf(f, n, reqs, t), Run(f, n, reqs).engine.books[t])
      ensures t == req.ticker ==>
        (Agrees(ShadowOf(f, n, reqs, t), Run(f, n, reqs).engine.books[t]) <==> Faithful(f, e.books[req.ticker], req))
      ensures TradesKnown(map[], Seen(t, Updates(Run(f, n, reqs).outs)))
    {
      ShadowStep(f, n, reqs, t);
    }
    var own := Agrees(ShadowOf(f, n, reqs, req.ticker), Run(f, n, reqs).engine.books[req.ticker]);
    assert own <==> Faithful(f, e.books[req.ticker], req);
  }
}
