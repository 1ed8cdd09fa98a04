/** What the shadow book shows although nothing rests under that id, over every run of either book. */
module ShadowLeftovers {
  import opened Types
  import opened PriceTime
  import opened BookInvariants
  import opened Greedy
  import opened EngineRun
  import opened ShadowBook
  import opened ShadowAgreement
  import opened ShadowCover
  import opened ShadowGaps

  predicate Listed(l: seq<Order>, id: OrderId) {
    exists i :: 0 <= i < |l| && l[i].moid == id
  }

  predicate Booked(b: Book, id: OrderId) {
    Listed(b.bids, id) || Listed(b.asks, id)
  }

  /** Every entry belongs to a resting order or to a marked one. */
  ghost predicate Explained(s: Shadow, b: Book, marked: set<OrderId>) {
    forall id :: id in s && id !in marked ==> Booked(b, id)
  }

  /** The fill-and-kill replacement that a vector book accepts without ever announcing its end. */
  function AbandonedBy(f: Flavor, b: Book, req: Request): set<OrderId> {
    if f.VectorForm? && req.action == ModifyOrder && ReplaceAccepted(b, req) && req.otype.FillAndKill?
    then {b.nextId} else {}
  }

  // ---------------------------------------------------------------- resting ids

  lemma BookedHas(b: Book, o: Order)
    requires Has(b, o)
    ensures Booked(b, o.moid)
  {
  }

  lemma BookedWitness(b: Book, id: OrderId) returns (o: Order)
    requires Booked(b, id)
    ensures Has(b, o) && o.moid == id
  {
    if Listed(b.bids, id) {
      var i :| 0 <= i < |b.bids| && b.bids[i].moid == id;
      o := b.bids[i];
    } else {
      var i :| 0 <= i < |b.asks| && b.asks[i].moid == id;
      o := b.asks[i];
    }
  }

  lemma BookedRemoved(b: Book, side: Side, k: nat, id: OrderId)
    requires BookInv(b) && k < |b.Orders(side)|
    ensures Booked(b.With(side, Remove(b.Orders(side), k)), id) <==> Booked(b, id) && id != b.Orders(side)[k].moid
  {
    var b' := b.With(side, Remove(b.Orders(side), k));
    if Booked(b, id) {
      var o := BookedWitness(b, id);
      HasRemoved(b, side, k, o);
      if id != b.Orders(side)[k].moid {
        BookedHas(b', o);
      }
    }
    if Booked(b', id) {
      var o := BookedWitness(b', id);
      HasRemoved(b, side, k, o);
      BookedHas(b, o);
    }
  }

  lemma BookedResized(b: Book, side: Side, k: nat, q: Quantity, id: OrderId)
    requires k < |b.Orders(side)|
    ensures var l := b.Orders(side); Booked(b.With(side, l[k := l[k].(remaining := q)]), id) <==> Booked(b, id)
  {
    var l := b.Orders(side);
    var l' := l[k := l[k].(remaining := q)];
    assert forall i :: 0 <= i < |l| ==> l'[i].moid == l[i].moid;
  }

  lemma BookedInserted(b: Book, x: Order, id: OrderId)
    ensures Booked(b.With(x.side, Insert(b.Orders(x.side), x)), id) <==> Booked(b, id) || id == x.moid
  {
    var l := b.Orders(x.side);
    var k, l' := InsertPos(x.side, l, x.price), Insert(l, x);
    assert l'[k] == x;
    if Listed(l, id) {
      var i :| 0 <= i < |l| && l[i].moid == id;
      assert l'[if i < k then i else i + 1] == l[i];
    }
    if Listed(l', id) {
      var i :| 0 <= i < |l'| && l'[i].moid == id;
      InsertMembers(l, x, i);
    }
  }

  // ---------------------------------------------------------------- matching

  /** A fill erases the entry of a spent order, unless the entry overstates it. */
  lemma FillExplained(f: Flavor, s: Shadow, b: Book, inc: Incoming, left: Quantity, mid: OrderId,
                      lost: set<OrderId>, crossed: Excess, marked: set<OrderId>)
    requires BookInv(b) && b.Orders(inc.side.Opposite()) != [] && 0 < left
    requires CoversAll(s, b, lost, crossed) && lost !! s.Keys && crossed.Keys <= marked && Explained(s, b, marked)
    ensures var opp := b.Orders(inc.side.Opposite());
            var b' := b.With(inc.side.Opposite(), FillFront(f, opp, inc, left, mid).rest);
            Explained(Apply(s, TradeOf(f, opp, inc, left, mid)), b', marked)
  {
    hide BookInv, CoversAll, FillOutputs;
    var side := inc.side.Opposite();
    var opp := b.Orders(side);
    var x, fill := opp[0], Min(left, opp[0].remaining);
    var s' := Apply(s, TradeOf(f, opp, inc, left, mid));
    FrontEntry(s, b, side, lost, crossed);
    assert Remove(opp, 0) == opp[1..];
    forall id | id in s' && id !in marked
      ensures Booked(b.With(side, FillFront(f, opp, inc, left, mid).rest), id)
    {
      BookedRemoved(b, side, 0, id);
      BookedResized(b, side, 0, x.remaining - fill, id);
    }
  }

  lemma FrontEntry(s: Shadow, b: Book, side: Side, lost: set<OrderId>, crossed: Excess)
    requires CoversAll(s, b, lost, crossed) && lost !! s.Keys && b.Orders(side) != []
    ensures var x := b.Orders(side)[0]; x.moid in s ==> s[x.moid].qty == x.remaining + Over(crossed, x.moid)
  {
    HasAt(b, side, 0);
  }

  lemma {:induction false} MatchExplained(f: Flavor, s: Shadow, b: Book, inc: Incoming, left: Quantity, mid: OrderId,
                                          lost: set<OrderId>, crossed: Excess, marked: set<OrderId>)
    requires BookInv(b) && CoversAll(s, b, lost, crossed) && lost !! s.Keys
    requires crossed.Keys <= marked && Explained(s, b, marked)
    ensures var m := Match(f, b.Orders(inc.side.Opposite()), inc, left, mid);
            Explained(ApplyAll(s, Updates(m.outs)), b.With(inc.side.Opposite(), m.rest), marked)
    decreases |b.Orders(inc.side.Opposite())|, left
  {
    hide CoversAll, BookInv, Apply, Explained;
    var side := inc.side.Opposite();
    var opp := b.Orders(side);
    if Stops(opp, inc, left) {
      assert b.With(side, opp) == b;
    } else {
      var r, u := FillFront(f, opp, inc, left, mid), TradeOf(f, opp, inc, left, mid);
      var b1, rest := b.With(side, r.rest), Match(f, r.rest, inc, r.left, r.mid);
      FillUpdates(f, opp, inc, left, mid);
      FillCovers(f, s, b, inc, left, mid, lost, crossed);
      FillExplained(f, s, b, inc, left, mid, lost, crossed, marked);
      TradeShrinks(s, u);
      MatchExplained(f, Apply(s, u), b1, inc, r.left, r.mid, lost, crossed, marked);
      UpdatesConcat(r.outs, rest.outs);
      ApplyConcat(s, [u], Updates(rest.outs));
      ApplyOne(s, u);
      assert b1.With(side, rest.rest) == b.With(side, rest.rest);
    }
  }

  // ---------------------------------------------------------------- one request

  lemma AddExplained(f: Flavor, s: Shadow, b: Book, mid: OrderId, req: Request,
                     lost: set<OrderId>, crossed: Excess, marked: set<OrderId>)
    requires BookInv(b) && CoversAll(s, b, lost, crossed) && lost !! s.Keys
    requires crossed.Keys <= marked && Explained(s, b, marked)
    ensures var r := AddStep(f, b, mid, req); Explained(ApplyAll(s, Updates(r.outs)), r.book, marked)
  {
    hide CoversAll, BookInv, Match, PriceTime.Insert, ApplyAll, Booked;
    var inc := NewIncoming(b, req);
    var side := inc.side.Opposite();
    var m := Match(f, b.Orders(side), inc, inc.qty, mid);
    MatchExplained(f, s, b, inc, inc.qty, mid, lost, crossed, marked);
    AddUpdates(f, b, mid, req);
    var s1, b1, tail := ApplyAll(s, Updates(m.outs)), b.With(side, m.rest), AddTail(inc, m.left);
    ApplyConcat(s, Updates(m.outs), Updates(tail));
    var r := AddStep(f, b, mid, req);
    if m.left > 0 && inc.otype.GoodTillCancel? {
      assert tail[1..] == [] && Updates(tail) == [tail[0].upd];
      ApplyOne(s1, tail[0].upd);
      forall id
        ensures Booked(r.book, id) <==> Booked(b1, id) || id == inc.moid
      {
        BookedInserted(b1, Resting(inc, m.left), id);
        SameLists(r.book, b1.With(inc.side, PriceTime.Insert(b1.Orders(inc.side), Resting(inc, m.left))), id);
      }
    } else {
      assert Updates(tail) == [];
      ApplyNothing(s1);
      forall id
        ensures Booked(r.book, id) <==> Booked(b1, id)
      {
        SameLists(r.book, b1, id);
      }
    }
  }

  lemma SameLists(b: Book, b': Book, id: OrderId)
    requires b.bids == b'.bids && b.asks == b'.asks
    ensures Booked(b, id) <==> Booked(b', id)
  {
  }

  lemma CancelExplained(f: Flavor, s: Shadow, b: Book, mid: OrderId, req: Request, marked: set<OrderId>)
    requires BookInv(b) && Explained(s, b, marked)
    ensures var r := CancelStep(f, b, mid, req); Explained(ApplyAll(s, Updates(r.outs)), r.book, marked)
  {
    hide BookInv, Booked;
    var r := CancelStep(f, b, mid, req);
    if Present(b, req.client, req.coid) && CancelQty(req, Replaced(b, req)) <= Replaced(b, req).remaining {
      var side := SideOf(b, req.client, req.coid);
      var k := Find(b.Orders(side), req.client, req.coid);
      var u := CancelUpdate(req, Replaced(b, req), CancelQty(req, Replaced(b, req)));
      assert Updates(r.outs) == [u] + Updates(r.outs[1..]);
      assert Updates(r.outs[1..]) == [];
      ApplyOne(s, u);
      forall id | id in s - {u.moid} && id !in marked
        ensures Booked(r.book, id)
      {
        BookedRemoved(b, side, k, id);
        BookedResized(b, side, k, Replaced(b, req).remaining - CancelQty(req, Replaced(b, req)), id);
      }
    } else {
      assert Updates(r.outs) == [];
    }
  }

  lemma WithoutRests(b: Book, req: Request, id: OrderId)
    requires BookInv(b) && Present(b, req.client, req.coid)
    ensures Booked(WithoutReplaced(b, req), id) <==> Booked(b, id) && id != Replaced(b, req).moid
  {
    hide BookInv;
    var side := SideOf(b, req.client, req.coid);
    BookedRemoved(b, side, Find(b.Orders(side), req.client, req.coid), id);
  }

  lemma ReplaceExplained(f: Flavor, s: Shadow, b: Book, mid: OrderId, req: Request,
                         lost: set<OrderId>, crossed: Excess, marked: set<OrderId>)
    requires BookInv(b) && CoversAll(s, b, lost, crossed) && lost !! s.Keys && req.action == ModifyOrder
    requires crossed.Keys <= marked && Explained(s, b, marked)
    ensures var r := ReplaceStep(f, b, mid, req);
            Explained(ApplyAll(s, Updates(r.outs)), r.book, marked + CrossedBy(b, req).Keys + AbandonedBy(f, b, req))
  {
    hide CoversAll, BookInv, Match, Find, WithoutReplaced, PriceTime.Insert, Liquidity, ApplyAll, Booked;
    var r := ReplaceStep(f, b, mid, req);
    if !ReplaceAccepted(b, req) {
      assert Updates(r.outs) == [];
      ApplyNothing(s);
      return;
    }
    var inc, m, b1 := ReplaceIncoming(b, req), ReplaceMatch(f, b, mid, req), WithoutReplaced(b, req);
    var s0 := s - {Replaced(b, req).moid};
    WithoutCovers(s, b, req, lost, crossed);
    forall id | id in s0 && id !in marked
      ensures Booked(b1, id)
    {
      WithoutRests(b, req, id);
    }
    MatchExplained(f, s0, b1, inc, inc.qty, mid, lost, crossed, marked);
    MatchTotal(f, b1.Orders(inc.side.Opposite()), inc, inc.qty, mid);
    ReplaceApplies(f, s, b, mid, req);
    if m.left > 0 && inc.otype.GoodTillCancel? {
      forall id
        ensures Booked(r.book, id) <==> Booked(b1.With(inc.side.Opposite(), m.rest), id) || id == b.nextId
      {
        BookedInserted(b1.With(inc.side.Opposite(), m.rest), Resting(inc, m.left), id);
      }
    }
  }

  lemma StepExplained(f: Flavor, s: Shadow, b: Book, mid: OrderId, req: Request,
                      lost: set<OrderId>, crossed: Excess, marked: set<OrderId>)
    requires BookInv(b) && CoversAll(s, b, lost, crossed) && lost !! s.Keys
    requires crossed.Keys <= marked && Explained(s, b, marked)
    ensures var r := Step(f, b, mid, req);
            Explained(ApplyAll(s, Updates(r.outs)), r.book, marked + CrossedBy(b, req).Keys + AbandonedBy(f, b, req))
  {
    hide CoversAll, BookInv, Explained;
    if req.action != ModifyOrder {
      assert CrossedBy(b, req) == map[] && AbandonedBy(f, b, req) == {};
      assert marked + CrossedBy(b, req).Keys + AbandonedBy(f, b, req) == marked;
    }
    match req.action
    case NewOrder =>
      AddExplained(f, s, b, mid, req, lost, crossed, marked);
    case CancelOrder =>
      CancelExplained(f, s, b, mid, req, marked);
    case ModifyOrder =>
      ReplaceExplained(f, s, b, mid, req, lost, crossed, marked);
  }

  // ---------------------------------------------------------------- whole runs

  function Abandoned(f: Flavor, n: nat, reqs: seq<Request>, t: TickerId): set<OrderId>
    requires InRange(n, reqs) && t < n
  {
    if reqs == [] then {}
    else
      var before := Abandoned(f, n, Init(reqs), t);
      if Last(reqs).ticker != t then before
      else before + AbandonedBy(f, Run(f, n, Init(reqs)).engine.books[t], Last(reqs))
  }

  /**
   Over every run: an id in the shadow book under which nothing rests was created by a replace that traded on
   entry or, in the vector form, by an accepted fill-and-kill replace.
   */
  lemma {:induction false} RunExplained(f: Flavor, n: nat, reqs: seq<Request>, t: TickerId)
    requires InRange(n, reqs) && FreshRun(f, n, reqs) && t < n
    ensures Explained(ShadowOf(f, n, reqs, t), Run(f, n, reqs).engine.books[t],
                      Crossed(f, n, reqs, t).Keys + Abandoned(f, n, reqs, t))
  {
    hide Step, CoversAll, BookInv, ShadowOf, TrimmedBy, CrossedBy, AbandonedBy, Explained;
    if reqs == [] {
      BootExplained(f, n, t);
    } else {
      RunExplained(f, n, Init(reqs), t);
      ShadowStep(f, n, reqs, t);
      var e, req, before := Run(f, n, Init(reqs)).engine, Last(reqs), Crossed(f, n, Init(reqs), t);
      if req.ticker == t {
        RunInv(f, n, Init(reqs), t);
        RunCovers(f, n, Init(reqs), t);
        RunGone(f, n, Init(reqs), t);
        StepExplained(f, ShadowOf(f, n, Init(reqs), t), e.books[t], e.mid, req, Trimmed(f, n, Init(reqs), t), before,
                      before.Keys + Abandoned(f, n, Init(reqs), t));
        Regroup(before, CrossedBy(e.books[t], req), Abandoned(f, n, Init(reqs), t), AbandonedBy(f, e.books[t], req));
      }
    }
  }

  lemma Regroup(x: Excess, y: Excess, a: set<OrderId>, b: set<OrderId>)
    ensures x.Keys + a + y.Keys + b == (x + y).Keys + (a + b)
  {
  }

  lemma BootExplained(f: Flavor, n: nat, t: TickerId)
    requires t < n
    ensures Explained(ShadowOf(f, n, [], t), Run(f, n, []).engine.books[t],
                      Crossed(f, n, [], t).Keys + Abandoned(f, n, [], t))
  {
  }
}
