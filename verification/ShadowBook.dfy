/**
 The market-data shadow book: what a listener that only hears the public updates believes is resting,
 and exactly when it is right.
 */
module ShadowBook {
  import opened Types
  import opened PriceTime
  import opened BookInvariants

  type Shadow = map<OrderId, Update>

  /** SnapshotStreamer::applyToBook for one ticker. */
  function Apply(s: Shadow, u: Update): Shadow {
    match u.kind
    case Add => s[u.moid := u]
    case Cancel => s - {u.moid}
    case Modify => (s - {u.moid})[u.newId := u.(moid := u.newId, newId := INVALID_ID)]
    case Trade =>
      if u.moid !in s then s  // the streamer logs this as critical
      else if s[u.moid].qty <= u.qty then s - {u.moid}
      else s[u.moid := s[u.moid].(qty := s[u.moid].qty - u.qty)]
    case SnapshotStart => s
    case Clear => s
    case SnapshotEnd => s
  }

  function ApplyAll(s: Shadow, us: seq<Update>): Shadow
    decreases |us|
  {
    if us == [] then s else ApplyAll(Apply(s, us[0]), us[1..])
  }

  /** Every trade names an order that the shadow book knows at that moment. */
  predicate TradesKnown(s: Shadow, us: seq<Update>)
    decreases |us|
  {
    us == [] || ((us[0].kind == Trade ==> us[0].moid in s) && TradesKnown(Apply(s, us[0]), us[1..]))
  }

  lemma {:induction false} ApplyConcat(s: Shadow, a: seq<Update>, b: seq<Update>)
    ensures ApplyAll(s, a + b) == ApplyAll(ApplyAll(s, a), b)
    ensures TradesKnown(s, a + b) <==> TradesKnown(s, a) && TradesKnown(ApplyAll(s, a), b)
    decreases |a|
  {
    if a == [] {
      assert a + b == b;
    } else {
      assert (a + b)[1..] == a[1..] + b;
      ApplyConcat(Apply(s, a[0]), a[1..], b);
    }
  }

  lemma ApplyOne(s: Shadow, u: Update)
    ensures ApplyAll(s, [u]) == Apply(s, u)
    ensures TradesKnown(s, [u]) <==> (u.kind == Trade ==> u.moid in s)
  {
  }

  // ---------------------------------------------------------------- agreement

  predicate Has(b: Book, o: Order) {
    o in b.bids || o in b.asks
  }

  predicate Matches(u: Update, o: Order) {
    u.side == o.side && u.price == o.price && u.qty == o.remaining
  }

  /** The shadow book lists exactly the resting orders, with side, price and remaining quantity. */
  ghost predicate Agrees(s: Shadow, b: Book) {
    && (forall o: Order :: Has(b, o) ==> o.moid in s && Matches(s[o.moid], o))
    && (forall id :: id in s ==> exists o: Order :: Has(b, o) && o.moid == id)
  }

  /** Ids are unique in a book. */
  lemma SameId(b: Book, o: Order, p: Order)
    requires BookInv(b) && Has(b, o) && Has(b, p) && o.moid == p.moid
    ensures o == p
  {
  }

  lemma HasAt(b: Book, side: Side, k: nat)
    requires k < |b.Orders(side)|
    ensures Has(b, b.Orders(side)[k])
  {
  }

  lemma HasRemoved(b: Book, side: Side, k: nat, o: Order)
    requires BookInv(b) && k < |b.Orders(side)|
    ensures Has(b.With(side, Remove(b.Orders(side), k)), o) <==> Has(b, o) && o.moid != b.Orders(side)[k].moid
  {
  }

  lemma HasResized(b: Book, side: Side, k: nat, q: Quantity, o: Order)
    requires BookInv(b) && k < |b.Orders(side)|
    ensures var l := b.Orders(side);
            Has(b.With(side, l[k := l[k].(remaining := q)]), o) <==>
            o == l[k].(remaining := q) || (Has(b, o) && o.moid != l[k].moid)
  {
    var l := b.Orders(side);
    var x, l' := l[k], l[k := l[k].(remaining := q)];
    HasAt(b, side, k);
    assert l'[k] == x.(remaining := q);
    if o in l && o.moid != x.moid {
      var i :| 0 <= i < |l| && l[i] == o;
      assert l'[i] == o;
    }
    if o in l' {
      var i :| 0 <= i < |l'| && l'[i] == o;
      if i != k {
        assert l[i] == o;
        assert Apart(l[if i < k then i else k], l[if i < k then k else i]);
      }
    }
    if Has(b, o) && o.moid == x.moid {
      SameId(b, o, x);
    }
  }

  lemma AgreesRemove(s: Shadow, b: Book, side: Side, k: nat)
    requires BookInv(b) && k < |b.Orders(side)| && Agrees(s, b)
    ensures Agrees(s - {b.Orders(side)[k].moid}, b.With(side, Remove(b.Orders(side), k)))
  {
    var x, b' := b.Orders(side)[k], b.With(side, Remove(b.Orders(side), k));
    forall o: Order
      ensures Has(b', o) <==> Has(b, o) && o.moid != x.moid
    {
      HasRemoved(b, side, k, o);
    }
    forall id | id in s - {x.moid}
      ensures exists o: Order :: Has(b', o) && o.moid == id
    {
      var o: Order :| Has(b, o) && o.moid == id;
      assert Has(b', o);
    }
  }

  lemma AgreesResize(s: Shadow, b: Book, side: Side, k: nat, q: Quantity)
    requires BookInv(b) && k < |b.Orders(side)| && Agrees(s, b)
    ensures var x := b.Orders(side)[k];
            && x.moid in s
            && Agrees(s[x.moid := s[x.moid].(qty := q)], b.With(side, b.Orders(side)[k := x.(remaining := q)]))
  {
    var x := b.Orders(side)[k];
    var b' := b.With(side, b.Orders(side)[k := x.(remaining := q)]);
    HasAt(b, side, k);
    var s' := s[x.moid := s[x.moid].(qty := q)];
    forall o: Order
      ensures Has(b', o) <==> o == x.(remaining := q) || (Has(b, o) && o.moid != x.moid)
    {
      HasResized(b, side, k, q, o);
    }
    forall id | id in s'
      ensures exists o: Order :: Has(b', o) && o.moid == id
    {
      if id == x.moid {
        assert Has(b', x.(remaining := q));
      } else {
        var o: Order :| Has(b, o) && o.moid == id;
        assert Has(b', o);
      }
    }
  }

  /** With one more entry on both sides, agreement turns on that entry alone. */
  lemma AgreesInsert(s: Shadow, b: Book, x: Order, u: Update)
    requires Agrees(s, b) && x.moid !in s
    ensures Agrees(s[x.moid := u], b.With(x.side, Insert(b.Orders(x.side), x))) <==> Matches(u, x)
  {
  }

  lemma AgreesExtra(s: Shadow, b: Book, id: OrderId, u: Update)
    requires Agrees(s, b) && id !in s
    ensures !Agrees(s[id := u], b)
  {
    assert forall o: Order :: Has(b, o) ==> o.moid != id;
    assert id in s[id := u];
  }

  /** A shadow book that agrees knows only ids below the next one. */
  lemma AgreesBelow(s: Shadow, b: Book)
    requires BookInv(b) && Agrees(s, b)
    ensures b.nextId !in s
  {
  }

  // ---------------------------------------------------------------- trades

  function TradeOf(f: Flavor, opp: seq<Order>, inc: Incoming, left: Quantity, mid: OrderId): Update
    requires opp != []
  {
    var fill := Min(left, opp[0].remaining);
    TradeUpdate(f, inc, opp[0].(remaining := opp[0].remaining - fill), fill, mid)
  }

  lemma FillUpdates(f: Flavor, opp: seq<Order>, inc: Incoming, left: Quantity, mid: OrderId)
    requires opp != []
    ensures Updates(FillFront(f, opp, inc, left, mid).outs) == [TradeOf(f, opp, inc, left, mid)]
  {
    var outs := FillFront(f, opp, inc, left, mid).outs;
    assert outs == [outs[0], outs[1]] + [outs[2]];
    UpdatesConcat([outs[0], outs[1]], [outs[2]]);
    assert [outs[0], outs[1]] == [outs[0]] + [outs[1]];
    UpdatesConcat([outs[0]], [outs[1]]);
  }

  lemma FillAgrees(f: Flavor, s: Shadow, b: Book, inc: Incoming, left: Quantity, mid: OrderId)
    requires var opp := b.Orders(inc.side.Opposite()); BookInv(b) && Agrees(s, b) && opp != [] && 0 < left
    ensures var opp := b.Orders(inc.side.Opposite());
            var b' := b.With(inc.side.Opposite(), FillFront(f, opp, inc, left, mid).rest);
            && TradeOf(f, opp, inc, left, mid).moid in s
            && BookInv(b') && Agrees(Apply(s, TradeOf(f, opp, inc, left, mid)), b')
  {
    hide Agrees, BookInv;
    var side := inc.side.Opposite();
    var opp := b.Orders(side);
    var x, fill := opp[0], Min(left, opp[0].remaining);
    FillShrinks(f, opp, inc, left, mid);
    ShrinksInv(side, FillFront(f, opp, inc, left, mid).rest, b);
    AgreesResize(s, b, side, 0, x.remaining - fill);
    ShownExactly(s, b, side, 0);
    if x.remaining == fill {
      AgreesRemove(s, b, side, 0);
      assert Remove(opp, 0) == opp[1..];
    } else {
      assert s[x.moid].qty - fill == x.remaining - fill;
    }
  }

  lemma ShownExactly(s: Shadow, b: Book, side: Side, k: nat)
    requires BookInv(b) && Agrees(s, b) && k < |b.Orders(side)|
    ensures var o := b.Orders(side)[k]; o.moid in s && Matches(s[o.moid], o) && 0 < o.remaining && o.side == side
  {
  }

  /** Trades keep a faithful shadow book faithful, and every one of them names a known order. */
  lemma {:induction false} MatchAgrees(f: Flavor, s: Shadow, b: Book, inc: Incoming, left: Quantity, mid: OrderId)
    requires BookInv(b) && Agrees(s, b)
    ensures var m := Match(f, b.Orders(inc.side.Opposite()), inc, left, mid);
            var b' := b.With(inc.side.Opposite(), m.rest);
            && BookInv(b') && Agrees(ApplyAll(s, Updates(m.outs)), b') && TradesKnown(s, Updates(m.outs))
    decreases |b.Orders(inc.side.Opposite())|, left
  {
    hide Agrees, BookInv, Apply;
    var side := inc.side.Opposite();
    var opp := b.Orders(side);
    if Stops(opp, inc, left) {
      assert b.With(side, opp) == b;
    } else {
      var r := FillFront(f, opp, inc, left, mid);
      var u, b1 := TradeOf(f, opp, inc, left, mid), b.With(side, r.rest);
      FillUpdates(f, opp, inc, left, mid);
      FillAgrees(f, s, b, inc, left, mid);
      MatchAgrees(f, Apply(s, u), b1, inc, r.left, r.mid);
      var rest := Match(f, r.rest, inc, r.left, r.mid);
      UpdatesConcat(r.outs, rest.outs);
      ApplyConcat(s, [u], Updates(rest.outs));
      ApplyOne(s, u);
      assert b1.With(side, rest.rest) == b.With(side, rest.rest);
    }
  }
}
