/** The unordered shadow book determines full price-time priority: sorting on price and id restores it. */
module Priority {
  import opened Types
  import opened PriceTime
  import opened BookInvariants
  import opened ShadowBook

  /** What the feed shows of an order. */
  datatype Line = Line(moid: OrderId, price: Price, qty: Quantity)

  function LineOf(o: Order): Line {
    Line(o.moid, o.price, o.remaining)
  }

  function Lines(l: seq<Order>): seq<Line> {
    seq(|l|, i requires 0 <= i < |l| => LineOf(l[i]))
  }

  ghost predicate Precedes(side: Side, a: Line, b: Line) {
    Better(side, a.price, b.price) || (a.price == b.price && a.moid < b.moid)
  }

  ghost predicate InOrder(side: Side, a: seq<Line>) {
    forall i, j :: 0 <= i < j < |a| ==> Precedes(side, a[i], a[j])
  }

  ghost predicate SameMembers(a: seq<Line>, b: seq<Line>) {
    forall x: Line :: x in a <==> x in b
  }

  lemma SameHead(side: Side, a: seq<Line>, b: seq<Line>)
    requires InOrder(side, a) && InOrder(side, b) && SameMembers(a, b) && a != []
    ensures b != [] && a[0] == b[0]
  {
    assert a[0] in b;
    assert b[0] in a;
    var i :| 0 <= i < |b| && b[i] == a[0];
    var j :| 0 <= j < |a| && a[j] == b[0];
    if i > 0 {
      assert Precedes(side, b[0], b[i]);
      assert j > 0 ==> Precedes(side, a[0], a[j]);
    }
  }

  lemma SameTail(side: Side, a: seq<Line>, b: seq<Line>)
    requires InOrder(side, a) && InOrder(side, b) && SameMembers(a, b) && a != [] && b != [] && a[0] == b[0]
    ensures SameMembers(a[1..], b[1..])
  {
    forall x: Line
      ensures x in a[1..] <==> x in b[1..]
    {
      TailMember(side, a, x);
      TailMember(side, b, x);
    }
  }

  lemma TailMember(side: Side, a: seq<Line>, x: Line)
    requires InOrder(side, a) && a != []
    ensures x in a[1..] <==> x in a && x != a[0]
  {
  }

  /** A set has one arrangement in strict priority order. */
  lemma {:induction false} OneArrangement(side: Side, a: seq<Line>, b: seq<Line>)
    requires InOrder(side, a) && InOrder(side, b) && SameMembers(a, b)
    ensures a == b
    decreases |a|
  {
    if a != [] {
      SameHead(side, a, b);
      SameTail(side, a, b);
      OneArrangement(side, a[1..], b[1..]);
      assert a == [a[0]] + a[1..] && b == [b[0]] + b[1..];
    } else if b != [] {
      SameHead(side, b, a);
    }
  }

  lemma LinesInOrder(side: Side, l: seq<Order>, nextId: OrderId)
    requires SideInv(side, l, nextId)
    ensures InOrder(side, Lines(l))
  {
  }

  lemma LineFromShadow(s: Shadow, b: Book, c: Book, side: Side, x: Line)
    requires BookInv(b) && BookInv(c) && Agrees(s, b) && Agrees(s, c) && x in Lines(b.Orders(side))
    ensures x in Lines(c.Orders(side))
  {
    var l, m := b.Orders(side), c.Orders(side);
    var i :| 0 <= i < |Lines(l)| && Lines(l)[i] == x;
    ShownExactly(s, b, side, i);
    var o: Order :| Has(c, o) && o.moid == x.moid;
    assert Matches(s[o.moid], o);
    assert o in c.bids ==> o.side == Buy;
    assert o in c.asks ==> o.side == Sell;
    var j :| 0 <= j < |m| && m[j] == o;
    assert Lines(m)[j] == x;
  }

  /** Two reachable books that a shadow book agrees with have the same orders in the same priority order. */
  lemma ShadowFixesPriority(s: Shadow, b: Book, c: Book, side: Side)
    requires BookInv(b) && BookInv(c) && Agrees(s, b) && Agrees(s, c)
    ensures Lines(b.Orders(side)) == Lines(c.Orders(side))
  {
    LinesInOrder(side, b.Orders(side), b.nextId);
    LinesInOrder(side, c.Orders(side), c.nextId);
    forall x: Line
      ensures x in Lines(b.Orders(side)) <==> x in Lines(c.Orders(side))
    {
      if x in Lines(b.Orders(side)) { LineFromShadow(s, b, c, side, x); }
      if x in Lines(c.Orders(side)) { LineFromShadow(s, c, b, side, x); }
    }
    OneArrangement(side, Lines(b.Orders(side)), Lines(c.Orders(side)));
  }
}
