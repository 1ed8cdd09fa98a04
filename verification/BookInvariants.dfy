/** What every step of the reference book keeps, and so what every reachable book satisfies. */
module BookInvariants {
  import opened Types
  import opened PriceTime

  /** a trades before b: better price, or same price and earlier id. */
  ghost predicate Before(side: Side, a: Order, b: Order) {
    Better(side, a.price, b.price) || (a.price == b.price && a.moid < b.moid)
  }

  ghost predicate Rests(side: Side, o: Order, nextId: OrderId) {
    o.side == side && 0 < o.remaining && 0 < o.moid < nextId && o.otype.GoodTillCancel?
  }

  ghost predicate Apart(a: Order, b: Order) {
    a.moid != b.moid && !HasKey(a, b.client, b.coid)
  }

  /** One side: strict price-time order, positive quantities, unique ids and keys. */
  ghost predicate SideInv(side: Side, l: seq<Order>, nextId: OrderId) {
    && (forall i :: 0 <= i < |l| ==> Rests(side, l[i], nextId))
    && (forall i, j :: 0 <= i < j < |l| ==> Before(side, l[i], l[j]) && Apart(l[i], l[j]))
  }

  ghost predicate CrossInv(bids: seq<Order>, asks: seq<Order>) {
    forall i, j :: 0 <= i < |bids| && 0 <= j < |asks| ==> Apart(bids[i], asks[j])
  }

  /** The best bid is strictly below the best ask. */
  ghost predicate Uncrossed(bids: seq<Order>, asks: seq<Order>) {
    forall i, j :: 0 <= i < |bids| && 0 <= j < |asks| ==> bids[i].price < asks[j].price
  }

  ghost predicate BookInv(b: Book) {
    && 0 < b.nextId
    && SideInv(Buy, b.bids, b.nextId)
    && SideInv(Sell, b.asks, b.nextId)
    && CrossInv(b.bids, b.asks)
    && Uncrossed(b.bids, b.asks)
  }

  // ---------------------------------------------------------------- what matching leaves

  /** rest is a suffix of l in which quantities may only have shrunk. */
  ghost predicate Shrinks(rest: seq<Order>, l: seq<Order>) {
    && |rest| <= |l|
    && (forall i :: 0 <= i < |rest| ==>
          var o := l[|l| - |rest| + i];
          rest[i] == o.(remaining := rest[i].remaining) && rest[i].remaining <= o.remaining
          && (0 < o.remaining ==> 0 < rest[i].remaining))
  }

  lemma FillShrinks(f: Flavor, opp: seq<Order>, inc: Incoming, left: Quantity, mid: OrderId)
    requires opp != []
    ensures Shrinks(FillFront(f, opp, inc, left, mid).rest, opp)
  {
  }

  lemma ShrinksSelf(l: seq<Order>)
    ensures Shrinks(l, l)
  {
  }

  lemma ShrinksTransitive(a: seq<Order>, b: seq<Order>, c: seq<Order>)
    requires Shrinks(a, b) && Shrinks(b, c)
    ensures Shrinks(a, c)
  {
  }

  lemma {:induction false} MatchShrinks(f: Flavor, opp: seq<Order>, inc: Incoming, left: Quantity, mid: OrderId)
    ensures var m := Match(f, opp, inc, left, mid); Shrinks(m.rest, opp) && m.left <= left && mid <= m.mid
    decreases |opp|, left
  {
    hide Shrinks;
    if Stops(opp, inc, left) {
      ShrinksSelf(opp);
    } else {
      var s := FillFront(f, opp, inc, left, mid);
      FillShrinks(f, opp, inc, left, mid);
      MatchShrinks(f, s.rest, inc, s.left, s.mid);
      ShrinksTransitive(Match(f, s.rest, inc, s.left, s.mid).rest, s.rest, opp);
    }
  }

  /** Matching stops only when the incoming order is filled or nothing left crosses its limit. */
  lemma {:induction false} MatchStops(f: Flavor, opp: seq<Order>, inc: Incoming, left: Quantity, mid: OrderId)
    ensures var m := Match(f, opp, inc, left, mid); Stops(m.rest, inc, m.left)
    decreases |opp|, left
  {
    if !Stops(opp, inc, left) {
      var s := FillFront(f, opp, inc, left, mid);
      MatchStops(f, s.rest, inc, s.left, s.mid);
    }
  }

  lemma ShrinksSide(side: Side, rest: seq<Order>, l: seq<Order>, nextId: OrderId)
    requires Shrinks(rest, l) && SideInv(side, l, nextId)
    ensures SideInv(side, rest, nextId)
  {
  }

  lemma ShrinksCross(side: Side, rest: seq<Order>, b: Book)
    requires Shrinks(rest, b.Orders(side)) && CrossInv(b.bids, b.asks) && Uncrossed(b.bids, b.asks)
    ensures var b' := b.With(side, rest); CrossInv(b'.bids, b'.asks) && Uncrossed(b'.bids, b'.asks)
  {
  }

  lemma ShrinksInv(side: Side, rest: seq<Order>, b: Book)
    requires Shrinks(rest, b.Orders(side)) && BookInv(b)
    ensures BookInv(b.With(side, rest))
  {
    hide Shrinks, SideInv, CrossInv, Uncrossed;
    ShrinksSide(side, rest, b.Orders(side), b.nextId);
    ShrinksCross(side, rest, b);
  }

  // ---------------------------------------------------------------- removal and insertion

  lemma RemoveSide(side: Side, l: seq<Order>, nextId: OrderId, k: nat)
    requires SideInv(side, l, nextId) && k < |l|
    ensures SideInv(side, Remove(l, k), nextId)
  {
  }

  lemma RemoveCross(b: Book, side: Side, k: nat)
    requires CrossInv(b.bids, b.asks) && Uncrossed(b.bids, b.asks) && k < |b.Orders(side)|
    ensures var b' := b.With(side, Remove(b.Orders(side), k)); CrossInv(b'.bids, b'.asks) && Uncrossed(b'.bids, b'.asks)
  {
  }

  lemma RemoveInv(b: Book, side: Side, k: nat)
    requires BookInv(b) && k < |b.Orders(side)|
    ensures BookInv(b.With(side, Remove(b.Orders(side), k)))
  {
    hide SideInv, CrossInv, Uncrossed;
    RemoveSide(side, b.Orders(side), b.nextId, k);
    RemoveCross(b, side, k);
  }

  lemma ReduceInv(b: Book, side: Side, k: nat, q: Quantity)
    requires BookInv(b) && k < |b.Orders(side)| && 0 < q
    ensures BookInv(b.With(side, b.Orders(side)[k := b.Orders(side)[k].(remaining := q)]))
  {
  }

  /** The newcomer has the newest id, so it goes behind its price and stays in strict order. */
  lemma InsertSide(l: seq<Order>, o: Order, nextId: OrderId)
    requires SideInv(o.side, l, nextId) && Rests(o.side, o, nextId)
    requires forall i :: 0 <= i < |l| ==> l[i].moid < o.moid && !HasKey(l[i], o.client, o.coid)
    ensures SideInv(o.side, Insert(l, o), nextId)
  {
    var l' := Insert(l, o);
    forall i | 0 <= i < |l'|
      ensures Rests(o.side, l'[i], nextId)
    {
      InsertMembers(l, o, i);
    }
    forall i, j | 0 <= i < j < |l'|
      ensures Before(o.side, l'[i], l'[j]) && Apart(l'[i], l'[j])
    {
      InsertPair(l, o, nextId, i, j);
    }
  }

  lemma InsertPair(l: seq<Order>, o: Order, nextId: OrderId, i: nat, j: nat)
    requires SideInv(o.side, l, nextId) && i < j <= |l|
    requires forall i :: 0 <= i < |l| ==> l[i].moid < o.moid && !HasKey(l[i], o.client, o.coid)
    ensures var l' := Insert(l, o); Before(o.side, l'[i], l'[j]) && Apart(l'[i], l'[j])
  {
    var k, l' := InsertPos(o.side, l, o.price), Insert(l, o);
    assert l'[i] == if i < k then l[i] else if i == k then o else l[i - 1];
    assert l'[j] == if j < k then l[j] else if j == k then o else l[j - 1];
    assert i == k && k < j - 1 ==> Before(o.side, l[k], l[j - 1]);
  }

  lemma InsertMembers(l: seq<Order>, o: Order, i: nat)
    requires i < |Insert(l, o)|
    ensures Insert(l, o)[i] == o || exists j :: 0 <= j < |l| && Insert(l, o)[i] == l[j]
  {
  }

  /** A newcomer with a new id and key that does not cross leaves the two sides apart. */
  lemma InsertCross(b: Book, o: Order)
    requires CrossInv(b.bids, b.asks) && Uncrossed(b.bids, b.asks)
    requires forall m: Order :: m in b.Orders(o.side.Opposite()) ==>
      m.moid < o.moid && !HasKey(m, o.client, o.coid) && !Crosses(o.side, o.price, m.price)
    ensures var b' := b.With(o.side, Insert(b.Orders(o.side), o));
            CrossInv(b'.bids, b'.asks) && Uncrossed(b'.bids, b'.asks)
  {
    var l, m := b.Orders(o.side), b.Orders(o.side.Opposite());
    var l' := Insert(l, o);
    forall i, j | 0 <= i < |l'| && 0 <= j < |m|
      ensures Apart(l'[i], m[j]) && Apart(m[j], l'[i])
      ensures if o.side.Buy? then l'[i].price < m[j].price else m[j].price < l'[i].price
    {
      InsertMembers(l, o, i);
      assert m[j] in m;
    }
  }

  lemma InsertInv(b: Book, o: Order)
    requires BookInv(b) && Rests(o.side, o, b.nextId) && !Present(b, o.client, o.coid)
    requires forall s: Side, i :: 0 <= i < |b.Orders(s)| ==> b.Orders(s)[i].moid < o.moid
    requires forall i :: 0 <= i < |b.Orders(o.side.Opposite())| ==>
      !Crosses(o.side, o.price, b.Orders(o.side.Opposite())[i].price)
    ensures BookInv(b.With(o.side, Insert(b.Orders(o.side), o)))
  {
    hide SideInv, CrossInv, Uncrossed, Find, PriceTime.Insert;
    FindNothing(b.bids, o.client, o.coid);
    FindNothing(b.asks, o.client, o.coid);
    InsertSide(b.Orders(o.side), o, b.nextId);
    InsertCross(b, o);
  }

  // ---------------------------------------------------------------- settling an incoming order

  lemma SettleInv(f: Flavor, b: Book, inc: Incoming, mid: OrderId)
    requires BookInv(b) && inc.moid + 1 == b.nextId && 0 < inc.moid && !Present(b, inc.client, inc.coid)
    requires forall s: Side, i :: 0 <= i < |b.Orders(s)| ==> b.Orders(s)[i].moid < inc.moid
    ensures var m := Match(f, b.Orders(inc.side.Opposite()), inc, inc.qty, mid);
            BookInv(Settle(b, inc, m.rest, m.left))
  {
    hide SideInv, CrossInv, Uncrossed, Match, Find;
    var opp := inc.side.Opposite();
    var m := Match(f, b.Orders(opp), inc, inc.qty, mid);
    MatchShrinks(f, b.Orders(opp), inc, inc.qty, mid);
    ShrinksInv(opp, m.rest, b);
    var b1 := b.With(opp, m.rest);
    if m.left > 0 && inc.otype.GoodTillCancel? {
      AbsentAfterMatch(f, b, inc, mid, inc.client, inc.coid);
      MatchStops(f, b.Orders(opp), inc, inc.qty, mid);
      RestBehindLimit(b1, inc, m.left);
      forall s: Side, i | 0 <= i < |b1.Orders(s)|
        ensures b1.Orders(s)[i].moid < inc.moid
      {
        if s == opp {
          assert b.Orders(s)[|b.Orders(s)| - |m.rest| + i].moid < inc.moid;
        } else {
          assert b.Orders(s)[i].moid < inc.moid;
        }
      }
      InsertInv(b1, Resting(inc, m.left));
    }
  }

  /** If the front no longer crosses, nothing behind it does. */
  lemma RestBehindLimit(b: Book, inc: Incoming, left: Quantity)
    requires BookInv(b) && 0 < left && Stops(b.Orders(inc.side.Opposite()), inc, left)
    ensures forall i :: 0 <= i < |b.Orders(inc.side.Opposite())| ==>
      !Crosses(inc.side, inc.price, b.Orders(inc.side.Opposite())[i].price)
  {
  }

  // ---------------------------------------------------------------- every step

  lemma NextIdInv(b: Book)
    requires BookInv(b)
    ensures BookInv(b.(nextId := b.nextId + 1))
    ensures forall s: Side, i :: 0 <= i < |b.Orders(s)| ==> b.Orders(s)[i].moid < b.nextId
  {
  }

  lemma AddInv(f: Flavor, b: Book, mid: OrderId, req: Request)
    requires BookInv(b) && !Present(b, req.client, req.coid)
    ensures BookInv(AddStep(f, b, mid, req).book)
  {
    hide SideInv, CrossInv, Uncrossed, Match, Find, Settle;
    NextIdInv(b);
    var b0 := b.(nextId := b.nextId + 1);
    forall s: Side, i | 0 <= i < |b0.Orders(s)|
      ensures b0.Orders(s)[i].moid < b.nextId
    {
      assert b.Orders(s)[i].moid < b.nextId;
    }
    SettleInv(f, b0, NewIncoming(b, req), mid);
  }

  lemma CancelInv(f: Flavor, b: Book, mid: OrderId, req: Request)
    requires BookInv(b)
    ensures BookInv(CancelStep(f, b, mid, req).book)
  {
    hide SideInv, CrossInv, Uncrossed;
    if Present(b, req.client, req.coid) {
      var side := SideOf(b, req.client, req.coid);
      var l := b.Orders(side);
      var k := Find(l, req.client, req.coid);
      var canceled := CancelQty(req, l[k]);
      if canceled == l[k].remaining {
        RemoveInv(b, side, k);
      } else if canceled < l[k].remaining {
        ReduceInv(b, side, k, l[k].remaining - canceled);
      }
    }
  }

  /** The order being replaced is the only one with its key. */
  lemma ReplacedGone(b: Book, req: Request)
    requires BookInv(b) && Present(b, req.client, req.coid)
    ensures !Present(WithoutReplaced(b, req), req.client, req.coid)
  {
    var side := SideOf(b, req.client, req.coid);
    var l, m := b.Orders(side), b.Orders(side.Opposite());
    var k := Find(l, req.client, req.coid);
    forall i | 0 <= i < |Remove(l, k)|
      ensures !HasKey(Remove(l, k)[i], req.client, req.coid)
    {
      var x := if i < k then i else i + 1;
      assert Apart(l[if x < k then x else k], l[if x < k then k else x]);
    }
    forall j | 0 <= j < |m|
      ensures !HasKey(m[j], req.client, req.coid)
    {
      assert if side.Buy? then Apart(l[k], m[j]) else Apart(m[j], l[k]);
    }
    FindNothing(Remove(l, k), req.client, req.coid);
    FindNothing(m, req.client, req.coid);
  }

  lemma WithoutInv(b: Book, req: Request)
    requires BookInv(b) && Present(b, req.client, req.coid)
    ensures BookInv(WithoutReplaced(b, req))
    ensures forall s: Side, i :: 0 <= i < |WithoutReplaced(b, req).Orders(s)| ==>
      WithoutReplaced(b, req).Orders(s)[i].moid < b.nextId
  {
    var side := SideOf(b, req.client, req.coid);
    var k := Find(b.Orders(side), req.client, req.coid);
    RemoveInv(b, side, k);
    NextIdInv(b.With(side, Remove(b.Orders(side), k)));
  }

  lemma ReplaceInv(f: Flavor, b: Book, mid: OrderId, req: Request)
    requires BookInv(b) && Fresh(b, req.(action := ModifyOrder))
    ensures BookInv(ReplaceStep(f, b, mid, req).book)
  {
    hide SideInv, CrossInv, Uncrossed, Match, Find, Settle, WithoutReplaced;
    if ReplaceAccepted(b, req) {
      WithoutInv(b, req);
      if req.newCoid == req.coid {
        ReplacedGone(b, req);
      } else {
        AbsentAfterRemoval(b, req, req.client, req.newCoid);
      }
      WithoutNextId(b, req);
      SettleInv(f, WithoutReplaced(b, req), ReplaceIncoming(b, req), mid);
    }
  }

  lemma WithoutNextId(b: Book, req: Request)
    requires Present(b, req.client, req.coid)
    ensures WithoutReplaced(b, req).nextId == b.nextId + 1
  {
  }

  /** Every request with a fresh key keeps the book sorted, uniquely keyed, positive and uncrossed. */
  lemma StepInv(f: Flavor, b: Book, mid: OrderId, req: Request)
    requires BookInv(b) && Fresh(b, req)
    ensures BookInv(Step(f, b, mid, req).book)
  {
    match req.action
    case NewOrder => AddInv(f, b, mid, req);
    case CancelOrder => CancelInv(f, b, mid, req);
    case ModifyOrder =>
      assert req.(action := ModifyOrder) == req;
      ReplaceInv(f, b, mid, req);
  }
}
