/** What the shadow book shows of a resting order, over every run of either book and without restrictions. */
module ShadowCover {
  import opened Types
  import opened PriceTime
  import opened BookInvariants
  import opened Greedy
  import opened EngineRun
  import opened ShadowBook
  import opened ShadowAgreement

  /** By how much the shadow book overstates an order: what its replace traded on entry. */
  type Excess = map<OrderId, Quantity>

  function Over(crossed: Excess, id: OrderId): Quantity {
    if id in crossed then crossed[id] else 0
  }

  /** The shadow entry of o has its side and price, and overstates it by exactly that much. */
  predicate Covers(s: Shadow, o: Order, over: Quantity) {
    o.moid in s && s[o.moid].side == o.side && s[o.moid].price == o.price && s[o.moid].qty == o.remaining + over
  }

  /** Orders never partially canceled are covered, exactly so unless a crossing replace created them. */
  ghost predicate CoversAll(s: Shadow, b: Book, trimmed: set<OrderId>, crossed: Excess) {
    && (forall id :: id in crossed ==> id < b.nextId)
    && (forall o: Order :: Has(b, o) && o.moid !in trimmed ==> Covers(s, o, Over(crossed, o.moid)))
  }

  function TrimmedBy(b: Book, req: Request): set<OrderId> {
    if PartialCancel(b, req) then {Replaced(b, req).moid} else {}
  }

  /** The replacement that a request creates, if it trades on entry, and how much it then trades. */
  function CrossedBy(b: Book, req: Request): Excess {
    if req.action == ModifyOrder && ReplaceAccepted(b, req) && ReplaceLiquidity(b, req) > 0
    then map[b.nextId := Min(req.qty, ReplaceLiquidity(b, req))] else map[]
  }

  lemma FillCovers(f: Flavor, s: Shadow, b: Book, inc: Incoming, left: Quantity, mid: OrderId,
                   trimmed: set<OrderId>, crossed: Excess)
    requires var opp := b.Orders(inc.side.Opposite());
             BookInv(b) && CoversAll(s, b, trimmed, crossed) && opp != [] && 0 < left
    ensures var opp := b.Orders(inc.side.Opposite());
            var b' := b.With(inc.side.Opposite(), FillFront(f, opp, inc, left, mid).rest);
            BookInv(b') && CoversAll(Apply(s, TradeOf(f, opp, inc, left, mid)), b', trimmed, crossed)
  {
    hide BookInv, FillOutputs;
    var side := inc.side.Opposite();
    var opp := b.Orders(side);
    var x, fill := opp[0], Min(left, opp[0].remaining);
    var rest, s' := FillFront(f, opp, inc, left, mid).rest, Apply(s, TradeOf(f, opp, inc, left, mid));
    FillShrinks(f, opp, inc, left, mid);
    ShrinksInv(side, rest, b);
    assert Remove(opp, 0) == opp[1..];
    forall o: Order | Has(b.With(side, rest), o) && o.moid !in trimmed
      ensures Covers(s', o, Over(crossed, o.moid))
    {
      HasAt(b, side, 0);
      HasRemoved(b, side, 0, o);
      HasResized(b, side, 0, x.remaining - fill, o);
    }
  }

  lemma {:induction false} MatchCovers(f: Flavor, s: Shadow, b: Book, inc: Incoming, left: Quantity, mid: OrderId,
                                       trimmed: set<OrderId>, crossed: Excess)
    requires BookInv(b) && CoversAll(s, b, trimmed, crossed)
    ensures var m := Match(f, b.Orders(inc.side.Opposite()), inc, left, mid);
            var b' := b.With(inc.side.Opposite(), m.rest);
            BookInv(b') && CoversAll(ApplyAll(s, Updates(m.outs)), b', trimmed, crossed)
    decreases |b.Orders(inc.side.Opposite())|, left
  {
    hide CoversAll, BookInv, Apply;
    var side := inc.side.Opposite();
    var opp := b.Orders(side);
    if Stops(opp, inc, left) {
      assert b.With(side, opp) == b;
    } else {
      var r := FillFront(f, opp, inc, left, mid);
      var u, b1 := TradeOf(f, opp, inc, left, mid), b.With(side, r.rest);
      FillUpdates(f, opp, inc, left, mid);
      FillCovers(f, s, b, inc, left, mid, trimmed, crossed);
      MatchCovers(f, Apply(s, u), b1, inc, r.left, r.mid, trimmed, crossed);
      var rest := Match(f, r.rest, inc, r.left, r.mid);
      UpdatesConcat(r.outs, rest.outs);
      ApplyConcat(s, [u], Updates(rest.outs));
      ApplyOne(s, u);
      assert b1.With(side, rest.rest) == b.With(side, rest.rest);
    }
  }

  lemma BumpCovers(s: Shadow, b: Book, trimmed: set<OrderId>, crossed: Excess)
    requires BookInv(b) && CoversAll(s, b, trimmed, crossed)
    ensures var b0 := b.(nextId := b.nextId + 1); BookInv(b0) && CoversAll(s, b0, trimmed, crossed)
  {
  }

  lemma InsertCovers(s: Shadow, b: Book, x: Order, u: Update, trimmed: set<OrderId>, crossed: Excess)
    requires CoversAll(s, b, trimmed, crossed) && forall o: Order :: Has(b, o) ==> o.moid != x.moid
    requires Covers(s[x.moid := u], x, Over(crossed, x.moid))
    ensures CoversAll(s[x.moid := u], b.With(x.side, Insert(b.Orders(x.side), x)), trimmed, crossed)
  {
  }

  /** Matching neither adds orders nor renames them. */
  lemma RestHas(b: Book, side: Side, rest: seq<Order>, o: Order)
    requires Shrinks(rest, b.Orders(side)) && Has(b.With(side, rest), o)
    ensures exists p: Order :: Has(b, p) && p.moid == o.moid
  {
  }

  lemma NewIdAbsent(f: Flavor, b: Book, inc: Incoming, mid: OrderId)
    requires forall p: Order :: Has(b, p) ==> p.moid != inc.moid
    ensures var m := Match(f, b.Orders(inc.side.Opposite()), inc, inc.qty, mid);
            forall o: Order :: Has(b.With(inc.side.Opposite(), m.rest), o) ==> o.moid != inc.moid
  {
    var side := inc.side.Opposite();
    var m := Match(f, b.Orders(side), inc, inc.qty, mid);
    MatchShrinks(f, b.Orders(side), inc, inc.qty, mid);
    forall o: Order | Has(b.With(side, m.rest), o)
      ensures o.moid != inc.moid
    {
      RestHas(b, side, m.rest, o);
    }
  }

  lemma BelowNext(b: Book)
    requires BookInv(b)
    ensures forall o: Order :: Has(b, o) ==> o.moid != b.nextId
  {
  }

  lemma AddCovers(f: Flavor, s: Shadow, b: Book, mid: OrderId, req: Request, trimmed: set<OrderId>,
                  crossed: Excess)
    requires BookInv(b) && CoversAll(s, b, trimmed, crossed)
    ensures var r := AddStep(f, b, mid, req); CoversAll(ApplyAll(s, Updates(r.outs)), r.book, trimmed, crossed)
  {
    hide CoversAll, BookInv, Match, PriceTime.Insert;
    var inc, b0 := NewIncoming(b, req), b.(nextId := b.nextId + 1);
    var side := inc.side.Opposite();
    BumpCovers(s, b, trimmed, crossed);
    CrossedBefore(s, b, trimmed, crossed);
    MatchCovers(f, s, b0, inc, inc.qty, mid, trimmed, crossed);
    var m := Match(f, b0.Orders(side), inc, inc.qty, mid);
    var s1, b1 := ApplyAll(s, Updates(m.outs)), b0.With(side, m.rest);
    AddUpdates(f, b, mid, req);
    if m.left > 0 && inc.otype.GoodTillCancel? {
      var u := PlainUpdate(inc.ticker, inc.moid, Add, inc.side, inc.price, m.left, INVALID_ID);
      ApplyConcat(s, Updates(m.outs), [u]);
      ApplyOne(s1, u);
      assert Updates(AddTail(inc, m.left)) == [u] by {
        assert AddTail(inc, m.left)[1..] == [];
      }
      BelowNext(b);
      NewIdAbsent(f, b0, inc, mid);
      InsertCovers(s1, b1, Resting(inc, m.left), u, trimmed, crossed);
    } else {
      assert Updates(m.outs) + [] == Updates(m.outs);
    }
  }

  lemma CancelCovers(f: Flavor, s: Shadow, b: Book, mid: OrderId, req: Request, trimmed: set<OrderId>,
                     crossed: Excess)
    requires BookInv(b) && CoversAll(s, b, trimmed, crossed) && req.action == CancelOrder
    ensures var r := CancelStep(f, b, mid, req);
            CoversAll(ApplyAll(s, Updates(r.outs)), r.book, trimmed + TrimmedBy(b, req), crossed)
  {
    hide BookInv;
    var r := CancelStep(f, b, mid, req);
    if Present(b, req.client, req.coid) {
      var side := SideOf(b, req.client, req.coid);
      var l := b.Orders(side);
      var k := Find(l, req.client, req.coid);
      var canceled := CancelQty(req, l[k]);
      if canceled <= l[k].remaining {
        var u := CancelUpdate(req, l[k], canceled);
        assert Updates(r.outs) == [u] + Updates(r.outs[1..]);
        assert Updates(r.outs[1..]) == [];
        ApplyOne(s, u);
        forall o: Order | Has(r.book, o) && o.moid !in trimmed + TrimmedBy(b, req)
          ensures Covers(s - {u.moid}, o, Over(crossed, o.moid))
        {
          HasRemoved(b, side, k, o);
          HasResized(b, side, k, l[k].remaining - canceled, o);
        }
        return;
      }
    }
    assert Updates(r.outs) == [];
  }

  lemma WithoutCovers(s: Shadow, b: Book, req: Request, trimmed: set<OrderId>, crossed: Excess)
    requires BookInv(b) && CoversAll(s, b, trimmed, crossed) && Present(b, req.client, req.coid)
    ensures var b1 := WithoutReplaced(b, req);
            && BookInv(b1) && CoversAll(s - {Replaced(b, req).moid}, b1, trimmed, crossed)
            && (forall o: Order :: Has(b1, o) ==> o.moid != b.nextId)
  {
    var side := SideOf(b, req.client, req.coid);
    var k := Find(b.Orders(side), req.client, req.coid);
    var b', x := b.With(side, Remove(b.Orders(side), k)), Replaced(b, req);
    forall o: Order
      ensures Has(b', o) <==> Has(b, o) && o.moid != x.moid
    {
      HasRemoved(b, side, k, o);
    }
    RemoveInv(b, side, k);
    BumpCovers(s - {x.moid}, b', trimmed, crossed);
    WithoutInv(b, req);
    BelowNext(b);
  }

  lemma ReplaceCovers(f: Flavor, s: Shadow, b: Book, mid: OrderId, req: Request, trimmed: set<OrderId>,
                      crossed: Excess)
    requires BookInv(b) && CoversAll(s, b, trimmed, crossed) && req.action == ModifyOrder
    ensures var r := ReplaceStep(f, b, mid, req);
            CoversAll(ApplyAll(s, Updates(r.outs)), r.book, trimmed, crossed + CrossedBy(b, req))
  {
    hide CoversAll, BookInv, Match, Find, WithoutReplaced, PriceTime.Insert, Liquidity, ApplyAll;
    var r, all := ReplaceStep(f, b, mid, req), crossed + CrossedBy(b, req);
    if !ReplaceAccepted(b, req) {
      assert Updates(r.outs) == [] && all == crossed;
      ApplyNothing(s);
      return;
    }
    var inc, m, b1 := ReplaceIncoming(b, req), ReplaceMatch(f, b, mid, req), WithoutReplaced(b, req);
    var s0, a := s - {Replaced(b, req).moid}, Announced(b, req);
    WithoutCovers(s, b, req, trimmed, crossed);
    CrossedBefore(s, b, trimmed, crossed);
    WithoutNextId(b, req);
    MoreCrossed(s0, b1, trimmed, crossed, all);
    MatchCovers(f, s0, b1, inc, inc.qty, mid, trimmed, all);
    MatchTotal(f, b1.Orders(inc.side.Opposite()), inc, inc.qty, mid);
    NewIdAbsent(f, b1, inc, mid);
    ReplaceApplies(f, s, b, mid, req);
    var s2, b2 := ApplyAll(s0, Updates(m.outs)), b1.With(inc.side.Opposite(), m.rest);
    if m.left > 0 && inc.otype.GoodTillCancel? {
      InsertCovers(s2, b2, Resting(inc, m.left), a, trimmed, all);
    } else if CancelOf(f, inc, m.left) == [] {
      ExtraCovers(s2, s2[b.nextId := a], b2, b.nextId, trimmed, all);
    } else {
      ExtraCovers(s2, s2[b.nextId := a] - {b.nextId}, b2, b.nextId, trimmed, all);
    }
  }

  lemma CrossedBefore(s: Shadow, b: Book, trimmed: set<OrderId>, crossed: Excess)
    requires CoversAll(s, b, trimmed, crossed)
    ensures forall id :: id in crossed ==> id < b.nextId
  {
  }

  lemma MoreCrossed(s: Shadow, b: Book, trimmed: set<OrderId>, crossed: Excess, all: Excess)
    requires CoversAll(s, b, trimmed, crossed) && forall id :: id in all ==> id < b.nextId
    requires forall o: Order :: Has(b, o) ==> Over(all, o.moid) == Over(crossed, o.moid)
    ensures CoversAll(s, b, trimmed, all)
  {
  }

  /** An entry that belongs to no resting order does not matter. */
  lemma ExtraCovers(s: Shadow, s': Shadow, b: Book, id: OrderId, trimmed: set<OrderId>, crossed: Excess)
    requires CoversAll(s, b, trimmed, crossed) && forall o: Order :: Has(b, o) ==> o.moid != id
    requires forall x :: x in s && x != id ==> x in s' && s'[x] == s[x]
    ensures CoversAll(s', b, trimmed, crossed)
  {
  }

  lemma StepCovers(f: Flavor, s: Shadow, b: Book, mid: OrderId, req: Request, trimmed: set<OrderId>,
                   crossed: Excess)
    requires BookInv(b) && CoversAll(s, b, trimmed, crossed)
    ensures var r := Step(f, b, mid, req);
            CoversAll(ApplyAll(s, Updates(r.outs)), r.book, trimmed + TrimmedBy(b, req), crossed + CrossedBy(b, req))
  {
    match req.action
    case NewOrder => AddCovers(f, s, b, mid, req, trimmed, crossed);
    case CancelOrder => CancelCovers(f, s, b, mid, req, trimmed, crossed);
    case ModifyOrder => ReplaceCovers(f, s, b, mid, req, trimmed, crossed);
  }

  function Trimmed(f: Flavor, n: nat, reqs: seq<Request>, t: TickerId): set<OrderId>
    requires InRange(n, reqs) && t < n
  {
    if reqs == [] then {}
    else
      var before := Trimmed(f, n, Init(reqs), t);
      if Last(reqs).ticker != t then before
      else before + TrimmedBy(Run(f, n, Init(reqs)).engine.books[t], Last(reqs))
  }

  function Crossed(f: Flavor, n: nat, reqs: seq<Request>, t: TickerId): Excess
    requires InRange(n, reqs) && t < n
  {
    if reqs == [] then map[]
    else
      var before := Crossed(f, n, Init(reqs), t);
      if Last(reqs).ticker != t then before
      else before + CrossedBy(Run(f, n, Init(reqs)).engine.books[t], Last(reqs))
  }

  /**
   Over every run of either book: a resting order that was never partially canceled is in the shadow book
   with its side and price, and with its remaining quantity plus what the replace that created it, if it
   was one, traded on entry.
   */
  lemma {:induction false} RunCovers(f: Flavor, n: nat, reqs: seq<Request>, t: TickerId)
    requires InRange(n, reqs) && FreshRun(f, n, reqs) && t < n
    ensures CoversAll(ShadowOf(f, n, reqs, t), Run(f, n, reqs).engine.books[t],
                      Trimmed(f, n, reqs, t), Crossed(f, n, reqs, t))
  {
    hide Step, CoversAll, BookInv, ShadowOf, TrimmedBy, CrossedBy;
    if reqs == [] {
      BootCovers(f, n, t);
    } else {
      RunCovers(f, n, Init(reqs), t);
      ShadowStep(f, n, reqs, t);
      var e, req := Run(f, n, Init(reqs)).engine, Last(reqs);
      if req.ticker == t {
        RunInv(f, n, Init(reqs), t);
        StepCovers(f, ShadowOf(f, n, Init(reqs), t), e.books[t], e.mid, req,
                   Trimmed(f, n, Init(reqs), t), Crossed(f, n, Init(reqs), t));
      }
    }
  }

  lemma BootCovers(f: Flavor, n: nat, t: TickerId)
    requires t < n
    ensures CoversAll(ShadowOf(f, n, [], t), Run(f, n, []).engine.books[t], {}, map[])
  {
  }
}
