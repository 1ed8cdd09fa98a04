/** What the shadow book has lost for good, over every run: exactly the orders that were partially canceled. */
module ShadowGaps {
  import opened Types
  import opened PriceTime
  import opened BookInvariants
  import opened EngineRun
  import opened ShadowBook
  import opened ShadowAgreement
  import opened ShadowCover

  /** The shadow book knows only ids that were issued, and none of the lost ones. */
  ghost predicate Gone(s: Shadow, b: Book, lost: set<OrderId>) {
    && (forall id :: id in s ==> id < b.nextId)
    && (forall id :: id in lost ==> id !in s && id < b.nextId)
  }

  // ---------------------------------------------------------------- the ids a request can add

  lemma AddIds(f: Flavor, s: Shadow, b: Book, mid: OrderId, req: Request)
    ensures var r := AddStep(f, b, mid, req);
            ApplyAll(s, Updates(r.outs)).Keys <= s.Keys + {b.nextId} && r.book.nextId == b.nextId + 1
  {
    hide Match, PriceTime.Insert;
    var inc := NewIncoming(b, req);
    var m := Match(f, b.Orders(inc.side.Opposite()), inc, inc.qty, mid);
    AddUpdates(f, b, mid, req);
    TradesShrink(f, s, b.Orders(inc.side.Opposite()), inc, inc.qty, mid);
    ApplyConcat(s, Updates(m.outs), Updates(AddTail(inc, m.left)));
    if m.left > 0 && inc.otype.GoodTillCancel? {
      var u := PlainUpdate(inc.ticker, inc.moid, Add, inc.side, inc.price, m.left, INVALID_ID);
      assert AddTail(inc, m.left)[1..] == [];
      ApplyOne(ApplyAll(s, Updates(m.outs)), u);
    } else {
      assert Updates(AddTail(inc, m.left)) == [];
    }
  }

  lemma CancelIds(f: Flavor, s: Shadow, b: Book, mid: OrderId, req: Request)
    requires req.action == CancelOrder
    ensures var r := CancelStep(f, b, mid, req);
            ApplyAll(s, Updates(r.outs)).Keys <= s.Keys - TrimmedBy(b, req) && r.book.nextId == b.nextId
  {
    var r := CancelStep(f, b, mid, req);
    if Present(b, req.client, req.coid) && CancelQty(req, Replaced(b, req)) <= Replaced(b, req).remaining {
      var u := CancelUpdate(req, Replaced(b, req), CancelQty(req, Replaced(b, req)));
      assert Updates(r.outs) == [u] + Updates(r.outs[1..]);
      assert Updates(r.outs[1..]) == [];
      ApplyOne(s, u);
    } else {
      assert Updates(r.outs) == [];
    }
  }

  lemma ReplaceIds(f: Flavor, s: Shadow, b: Book, mid: OrderId, req: Request)
    ensures var r := ReplaceStep(f, b, mid, req);
            && ApplyAll(s, Updates(r.outs)).Keys <= s.Keys + {b.nextId}
            && r.book.nextId == b.nextId + (if ReplaceAccepted(b, req) then 1 else 0)
            && (!ReplaceAccepted(b, req) ==> Updates(r.outs) == [])
  {
    hide Match, PriceTime.Insert;
    if ReplaceAccepted(b, req) {
      var inc, m := ReplaceIncoming(b, req), ReplaceMatch(f, b, mid, req);
      var u := PlainUpdate(inc.ticker, Replaced(b, req).moid, Modify, inc.side, inc.price, inc.qty, inc.moid);
      var opp := WithoutReplaced(b, req).Orders(inc.side.Opposite());
      ReplaceUpdates(f, b, mid, req);
      ApplyOne(s, u);
      TradesShrink(f, Apply(s, u), opp, inc, inc.qty, mid);
      ApplyConcat(s, [u], Updates(m.outs));
      ApplyConcat(s, [u] + Updates(m.outs), CancelOf(f, inc, m.left));
      if CancelOf(f, inc, m.left) != [] {
        ApplyOne(ApplyAll(s, [u] + Updates(m.outs)), CancelOf(f, inc, m.left)[0]);
      }
    } else {
      assert Updates(ReplaceStep(f, b, mid, req).outs) == [];
    }
  }

  lemma StepGone(f: Flavor, s: Shadow, b: Book, mid: OrderId, req: Request, lost: set<OrderId>)
    requires BookInv(b) && Gone(s, b, lost)
    ensures var r := Step(f, b, mid, req); Gone(ApplyAll(s, Updates(r.outs)), r.book, lost + TrimmedBy(b, req))
  {
    hide AddStep, CancelStep, ReplaceStep;
    match req.action
    case NewOrder => AddIds(f, s, b, mid, req);
    case CancelOrder =>
      CancelIds(f, s, b, mid, req);
      TrimmedBelow(b, req);
    case ModifyOrder => ReplaceIds(f, s, b, mid, req);
  }

  lemma TrimmedBelow(b: Book, req: Request)
    requires BookInv(b)
    ensures forall id :: id in TrimmedBy(b, req) ==> id < b.nextId
  {
  }

  /** Over every run: what was partially canceled is not in the shadow book and never comes back. */
  lemma {:induction false} RunGone(f: Flavor, n: nat, reqs: seq<Request>, t: TickerId)
    requires InRange(n, reqs) && FreshRun(f, n, reqs) && t < n
    ensures Gone(ShadowOf(f, n, reqs, t), Run(f, n, reqs).engine.books[t], Trimmed(f, n, reqs, t))
  {
    hide Step, BookInv, ShadowOf, TrimmedBy;
    if reqs == [] {
      BootGone(f, n, t);
    } else {
      RunGone(f, n, Init(reqs), t);
      ShadowStep(f, n, reqs, t);
      var e, req := Run(f, n, Init(reqs)).engine, Last(reqs);
      if req.ticker == t {
        RunInv(f, n, Init(reqs), t);
        StepGone(f, ShadowOf(f, n, Init(reqs), t), e.books[t], e.mid, req, Trimmed(f, n, Init(reqs), t));
      }
    }
  }

  lemma BootGone(f: Flavor, n: nat, t: TickerId)
    requires t < n
    ensures Gone(ShadowOf(f, n, [], t), Run(f, n, []).engine.books[t], {})
  {
  }

  // ---------------------------------------------------------------- the trades it cannot place

  /** Of the trades in us, the shadow book knows exactly those that are not about a lost order. */
  predicate MissesOnly(s: Shadow, us: seq<Update>, lost: set<OrderId>)
    decreases |us|
  {
    us == [] || (
      && (us[0].kind == Trade ==> (us[0].moid in s <==> us[0].moid !in lost))
      && MissesOnly(Apply(s, us[0]), us[1..], lost))
  }

  lemma {:induction false} MissesConcat(s: Shadow, a: seq<Update>, b: seq<Update>, lost: set<OrderId>)
    ensures MissesOnly(s, a + b, lost) <==> MissesOnly(s, a, lost) && MissesOnly(ApplyAll(s, a), b, lost)
    decreases |a|
  {
    if a == [] {
      assert a + b == b;
    } else {
      assert (a + b)[1..] == a[1..] + b;
      MissesConcat(Apply(s, a[0]), a[1..], b, lost);
    }
  }

  lemma MissesNothing(s: Shadow, lost: set<OrderId>)
    ensures MissesOnly(s, [], lost)
  {
  }

  lemma MissesOne(s: Shadow, u: Update, lost: set<OrderId>)
    ensures MissesOnly(s, [u], lost) <==> (u.kind == Trade ==> (u.moid in s <==> u.moid !in lost))
  {
  }

  lemma FrontCovered(s: Shadow, b: Book, side: Side, lost: set<OrderId>, crossed: Excess)
    requires CoversAll(s, b, lost, crossed) && b.Orders(side) != []
    ensures b.Orders(side)[0].moid !in lost ==> b.Orders(side)[0].moid in s
  {
    HasAt(b, side, 0);
  }

  lemma {:induction false} MatchMisses(f: Flavor, s: Shadow, b: Book, inc: Incoming, left: Quantity, mid: OrderId,
                                       lost: set<OrderId>, crossed: Excess)
    requires BookInv(b) && CoversAll(s, b, lost, crossed) && lost !! s.Keys
    ensures MissesOnly(s, Updates(Match(f, b.Orders(inc.side.Opposite()), inc, left, mid).outs), lost)
    decreases |b.Orders(inc.side.Opposite())|, left
  {
    hide CoversAll, BookInv, Apply;
    var side := inc.side.Opposite();
    var opp := b.Orders(side);
    MissesNothing(s, lost);
    if !Stops(opp, inc, left) {
      var r, u := FillFront(f, opp, inc, left, mid), TradeOf(f, opp, inc, left, mid);
      FillUpdates(f, opp, inc, left, mid);
      FillCovers(f, s, b, inc, left, mid, lost, crossed);
      FrontCovered(s, b, side, lost, crossed);
      TradeShrinks(s, u);
      MatchMisses(f, Apply(s, u), b.With(side, r.rest), inc, r.left, r.mid, lost, crossed);
      var rest := Match(f, r.rest, inc, r.left, r.mid);
      UpdatesConcat(r.outs, rest.outs);
      MissesConcat(s, [u], Updates(rest.outs), lost);
      MissesOne(s, u, lost);
      ApplyOne(s, u);
    }
  }

  lemma TradeShrinks(s: Shadow, u: Update)
    requires u.kind == Trade
    ensures Apply(s, u).Keys <= s.Keys
  {
  }

  lemma AddMisses(f: Flavor, s: Shadow, b: Book, mid: OrderId, req: Request, lost: set<OrderId>, crossed: Excess)
    requires BookInv(b) && CoversAll(s, b, lost, crossed) && lost !! s.Keys
    ensures MissesOnly(s, Updates(AddStep(f, b, mid, req).outs), lost)
  {
    hide CoversAll, BookInv, Match;
    var inc := NewIncoming(b, req);
    var m := Match(f, b.Orders(inc.side.Opposite()), inc, inc.qty, mid);
    MatchMisses(f, s, b, inc, inc.qty, mid, lost, crossed);
    AddUpdates(f, b, mid, req);
    var tail := AddTail(inc, m.left);
    MissesConcat(s, Updates(m.outs), Updates(tail), lost);
    if m.left > 0 && inc.otype.GoodTillCancel? {
      assert tail[1..] == [];
      MissesOne(ApplyAll(s, Updates(m.outs)), tail[0].upd, lost);
    } else {
      assert Updates(tail) == [];
    }
  }

  lemma ReplaceMisses(f: Flavor, s: Shadow, b: Book, mid: OrderId, req: Request, lost: set<OrderId>,
                      crossed: Excess)
    requires BookInv(b) && CoversAll(s, b, lost, crossed) && Gone(s, b, lost) && ReplaceAccepted(b, req)
    ensures MissesOnly(s, Updates(ReplaceStep(f, b, mid, req).outs), lost)
  {
    hide CoversAll, BookInv, Match, WithoutReplaced, Find;
    var inc, m, b1 := ReplaceIncoming(b, req), ReplaceMatch(f, b, mid, req), WithoutReplaced(b, req);
    var u := PlainUpdate(inc.ticker, Replaced(b, req).moid, Modify, inc.side, inc.price, inc.qty, inc.moid);
    var s1 := (s - {u.moid})[b.nextId := Announced(b, req)];
    ReplaceUpdates(f, b, mid, req);
    WithoutCovers(s, b, req, lost, crossed);
    ExtraCovers(s - {u.moid}, s1, b1, b.nextId, lost, crossed);
    MatchMisses(f, s1, b1, inc, inc.qty, mid, lost, crossed);
    assert Apply(s, u) == s1;
    ApplyOne(s, u);
    MissesOne(s, u, lost);
    MissesConcat(s, [u], Updates(m.outs), lost);
    MissesConcat(s, [u] + Updates(m.outs), CancelOf(f, inc, m.left), lost);
    if CancelOf(f, inc, m.left) != [] {
      MissesOne(ApplyAll(s, [u] + Updates(m.outs)), CancelOf(f, inc, m.left)[0], lost);
    }
  }

  lemma StepMisses(f: Flavor, s: Shadow, b: Book, mid: OrderId, req: Request, lost: set<OrderId>, crossed: Excess)
    requires BookInv(b) && CoversAll(s, b, lost, crossed) && Gone(s, b, lost)
    ensures MissesOnly(s, Updates(Step(f, b, mid, req).outs), lost)
  {
    hide CoversAll, BookInv;
    match req.action
    case NewOrder => AddMisses(f, s, b, mid, req, lost, crossed);
    case CancelOrder =>
      var outs := CancelStep(f, b, mid, req).outs;
      assert outs[0].Private? ==> Updates(outs) == [];
      if outs[0].Public? {
        assert Updates(outs) == [outs[0].upd] + Updates(outs[1..]);
        assert Updates(outs[1..]) == [];
        MissesOne(s, outs[0].upd, lost);
      }
    case ModifyOrder =>
      if ReplaceAccepted(b, req) {
        ReplaceMisses(f, s, b, mid, req, lost, crossed);
      } else {
        assert Updates(ReplaceStep(f, b, mid, req).outs) == [];
      }
  }

  /** At every request of the run, the shadow book misses exactly the trades of orders partially canceled before. */
  ghost predicate MissesThroughout(f: Flavor, n: nat, reqs: seq<Request>, t: TickerId)
    requires InRange(n, reqs) && t < n
  {
    reqs != [] ==>
      var e, req := Run(f, n, Init(reqs)).engine, Last(reqs);
      && MissesThroughout(f, n, Init(reqs), t)
      && (req.ticker == t ==>
            MissesOnly(ShadowOf(f, n, Init(reqs), t), Updates(Step(f, e.books[t], e.mid, req).outs),
                       Trimmed(f, n, Init(reqs), t)))
  }

  lemma {:induction false} RunMisses(f: Flavor, n: nat, reqs: seq<Request>, t: TickerId)
    requires InRange(n, reqs) && FreshRun(f, n, reqs) && t < n
    ensures MissesThroughout(f, n, reqs, t)
  {
    hide Step, BookInv, ShadowOf, CoversAll;
    if reqs != [] {
      RunMisses(f, n, Init(reqs), t);
      var e, req := Run(f, n, Init(reqs)).engine, Last(reqs);
      if req.ticker == t {
        RunInv(f, n, Init(reqs), t);
        RunCovers(f, n, Init(reqs), t);
        RunGone(f, n, Init(reqs), t);
        StepMisses(f, ShadowOf(f, n, Init(reqs), t), e.books[t], e.mid, req,
                   Trimmed(f, n, Init(reqs), t), Crossed(f, n, Init(reqs), t));
      }
    }
  }
}
