/**
 What a client is owed for each request, said field by field of the request and of the book it meets. Nothing
 here is defined through the reference steps; the lemmas connect the two.
 */
module Promises {
  import opened Types
  import opened PriceTime
  import opened BookInvariants
  import opened Greedy
  import opened Conservation

  // ---------------------------------------------------------------- quantities

  /** A price no worse than the limit. */
  predicate Within(side: Side, limit: Price, price: Price) {
    match side
    case Buy => price <= limit
    case Sell => price >= limit
  }

  /** All that rests within the limit. */
  function Reach(l: seq<Order>, side: Side, limit: Price): nat {
    if l == [] then 0 else (if Within(side, limit, l[0].price) then l[0].remaining else 0) + Reach(l[1..], side, limit)
  }

  /** What an order of this quantity trades: all of it, or all that is within its limit. */
  function Taken(l: seq<Order>, side: Side, limit: Price, qty: Quantity): nat {
    if qty <= Reach(l, side, limit) then qty else Reach(l, side, limit)
  }

  /** What the order at position i gives: it waits for everything ahead of it. */
  function Portion(l: seq<Order>, side: Side, limit: Price, qty: Quantity, i: nat): nat
    requires i < |l|
  {
    if !Within(side, limit, l[i].price) || qty <= Ahead(l, i) then 0
    else if qty - Ahead(l, i) <= l[i].remaining then qty - Ahead(l, i)
    else l[i].remaining
  }

  // ---------------------------------------------------------------- messages

  /** The owner of a resting order hears of its execution. */
  predicate RestingTold(x: Output, ticker: TickerId, o: Order, share: nat, mid: OrderId) {
    && x.Private? && x.resp.status == Executed && x.resp.ticker == ticker
    && x.resp.client == o.client && x.resp.coid == o.coid && x.resp.moid == o.moid && x.resp.token == o.token
    && x.resp.side == o.side && x.resp.price == o.price && x.resp.qty == o.initial && x.resp.otype == o.otype
    && x.resp.executed == share && x.resp.execPrice == o.price && x.resp.leaves == o.remaining - share
    && x.resp.matchId == mid
  }

  /** The sender of the incoming order hears of the same execution. */
  predicate TakerTold(x: Output, inc: Incoming, level: Price, share: nat, leaves: int, mid: OrderId) {
    && x.Private? && x.resp.status == Executed && x.resp.ticker == inc.ticker
    && x.resp.client == inc.client && x.resp.coid == inc.coid && x.resp.moid == inc.moid && x.resp.token == inc.token
    && x.resp.side == inc.side && x.resp.price == inc.price && x.resp.qty == inc.qty && x.resp.otype == inc.otype
    && x.resp.executed == share && x.resp.execPrice == level && x.resp.leaves == leaves
    && x.resp.matchId == mid
  }

  /** The public hears of it too, by the resting order's id. */
  predicate TradeTold(f: Flavor, x: Output, ticker: TickerId, o: Order, share: nat, mid: OrderId) {
    && x.Public? && x.upd.kind == Trade && x.upd.ticker == ticker && x.upd.moid == o.moid
    && x.upd.side == o.side && x.upd.price == o.price && x.upd.qty == share
    && x.upd.newId == INVALID_ID && x.upd.matchId == (if f.MapForm? then mid else INVALID_ID)
  }

  /** From position `at`, three messages per fill: the j-th about position j of l, under the j-th match id. */
  ghost predicate FillsTold(f: Flavor, outs: seq<Output>, at: nat, l: seq<Order>, inc: Incoming, mid: OrderId) {
    forall j :: 0 <= j < |l| && 0 < Portion(l, inc.side, inc.price, inc.qty, j) ==>
      FillTold(f, outs, at + 3 * j, l, j, inc, mid)
  }

  ghost predicate FillTold(f: Flavor, outs: seq<Output>, at: nat, l: seq<Order>, j: nat, inc: Incoming, mid: OrderId)
    requires j < |l|
  {
    var share := Portion(l, inc.side, inc.price, inc.qty, j);
    && at + 3 <= |outs|
    && RestingTold(outs[at], inc.ticker, l[j], share, mid + j)
    && TakerTold(outs[at + 1], inc, l[j].price, share, inc.qty - Ahead(l, j) - share, mid + j)
    && TradeTold(f, outs[at + 2], inc.ticker, l[j], share, mid + j)
  }

  /** A notice to the sender about its whole order: accepted, modified, or the rest of it canceled. */
  predicate NoticeTold(x: Output, inc: Incoming, status: Status, leaves: int) {
    && x.Private? && x.resp.status == status && x.resp.ticker == inc.ticker
    && x.resp.client == inc.client && x.resp.coid == inc.coid && x.resp.moid == inc.moid && x.resp.token == inc.token
    && x.resp.side == inc.side && x.resp.price == inc.price && x.resp.qty == inc.qty && x.resp.otype == inc.otype
    && x.resp.executed == 0 && x.resp.execPrice == inc.price && x.resp.leaves == leaves
    && x.resp.matchId == INVALID_ID
  }

  predicate UpdateTold(x: Output, ticker: TickerId, kind: UpdateKind, moid: OrderId, side: Side, price: Price, qty: int,
                       newId: OrderId) {
    && x.Public? && x.upd.kind == kind && x.upd.ticker == ticker && x.upd.moid == moid && x.upd.side == side
    && x.upd.price == price && x.upd.qty == qty && x.upd.newId == newId && x.upd.matchId == INVALID_ID
  }

  /** The sender hears that there is no such order. */
  predicate UnknownTold(x: Output, req: Request) {
    && x.Private? && x.resp.status == CancelRejected && x.resp.client == req.client && x.resp.coid == req.coid
    && x.resp.token == req.token && x.resp.ticker == req.ticker && x.resp.moid == INVALID_ID
    && x.resp.side == Buy && x.resp.price == INVALID_PRICE && x.resp.qty == 0 && x.resp.otype == GoodTillCancel
    && x.resp.executed == 0 && x.resp.execPrice == INVALID_PRICE && x.resp.leaves == 0
    && x.resp.matchId == INVALID_ID
  }

  /** The sender hears something about its resting order o. */
  predicate OwnerTold(x: Output, req: Request, o: Order, status: Status, leaves: int) {
    && x.Private? && x.resp.status == status && x.resp.ticker == req.ticker
    && x.resp.client == req.client && x.resp.coid == req.coid && x.resp.moid == o.moid && x.resp.token == o.token
    && x.resp.side == o.side && x.resp.price == o.price && x.resp.qty == o.initial && x.resp.otype == o.otype
    && x.resp.executed == 0 && x.resp.leaves == leaves && x.resp.matchId == INVALID_ID
  }

  // ---------------------------------------------------------------- matching

  /** l' is what is left of l: position i gave its portion, and is gone if that was all it had. */
  ghost predicate Took(l: seq<Order>, l': seq<Order>, side: Side, limit: Price, qty: Quantity) {
    && |l'| <= |l|
    && (forall i :: 0 <= i < |l| ==> TookAt(l, l', side, limit, qty, i))
  }

  ghost predicate TookAt(l: seq<Order>, l': seq<Order>, side: Side, limit: Price, qty: Quantity, i: nat)
    requires i < |l| && |l'| <= |l|
  {
    var gone, share := |l| - |l'|, Portion(l, side, limit, qty, i);
    if i < gone then share == l[i].remaining
    else share < l[i].remaining && l'[i - gone] == l[i].(remaining := l[i].remaining - share)
  }

  lemma PortionIsShare(l: seq<Order>, inc: Incoming, qty: Quantity, i: nat)
    requires i < |l|
    ensures Portion(l, inc.side, inc.price, qty, i) == Share(l, inc, qty, i)
  {
  }

  lemma {:induction false} ReachIsLiquidity(l: seq<Order>, inc: Incoming, nextId: OrderId)
    requires Queue(inc, l, nextId)
    ensures Reach(l, inc.side, inc.price) == Liquidity(l, inc)
  {
    if l != [] {
      QueueTail(inc, l, nextId);
      ReachIsLiquidity(l[1..], inc, nextId);
      if !Crosses(inc.side, inc.price, l[0].price) && 1 < |l| {
        assert Before(inc.side.Opposite(), l[0], l[1]);
      }
    }
  }

  lemma MatchTook(f: Flavor, l: seq<Order>, inc: Incoming, mid: OrderId, nextId: OrderId)
    requires Queue(inc, l, nextId)
    ensures var m := Match(f, l, inc, inc.qty, mid);
            Took(l, m.rest, inc.side, inc.price, inc.qty) && m.left == inc.qty - Taken(l, inc.side, inc.price, inc.qty)
  {
    hide Match, Queue, Share, Portion, Liquidity, Reach;
    RestIsShort(f, l, inc, inc.qty, mid);
    MatchTotal(f, l, inc, inc.qty, mid);
    ReachIsLiquidity(l, inc, nextId);
    forall i | 0 <= i < |l|
      ensures TookAt(l, Match(f, l, inc, inc.qty, mid).rest, inc.side, inc.price, inc.qty, i)
    {
      MatchTakesShares(f, l, inc, inc.qty, mid, nextId, i);
      PortionIsShare(l, inc, inc.qty, i);
    }
  }

  /** Every fill is told, and as many match ids are used as there are positions that give something. */
  lemma MatchTold(f: Flavor, l: seq<Order>, inc: Incoming, mid: OrderId, nextId: OrderId)
    requires Queue(inc, l, nextId)
    ensures var m := Match(f, l, inc, inc.qty, mid);
            && mid <= m.mid <= mid + |l| && |m.outs| == 3 * (m.mid - mid) && FillsTold(f, m.outs, 0, l, inc, mid)
            && (forall j :: 0 <= j < |l| ==> (j < m.mid - mid <==> 0 < Portion(l, inc.side, inc.price, inc.qty, j)))
  {
    hide Match, Queue, Share, Portion;
    var m := Match(f, l, inc, inc.qty, mid);
    MatchMessages(f, l, inc, inc.qty, mid, nextId);
    forall j | 0 <= j < |l|
      ensures Portion(l, inc.side, inc.price, inc.qty, j) == Share(l, inc, inc.qty, j)
      ensures 0 < Portion(l, inc.side, inc.price, inc.qty, j) ==> FillTold(f, m.outs, 3 * j, l, j, inc, mid)
    {
      PortionIsShare(l, inc, inc.qty, j);
      if 0 < Portion(l, inc.side, inc.price, inc.qty, j) {
        MatchToldAt(f, l, inc, mid, nextId, j);
      }
    }
  }

  lemma MatchToldAt(f: Flavor, l: seq<Order>, inc: Incoming, mid: OrderId, nextId: OrderId, j: nat)
    requires Queue(inc, l, nextId) && j < |l| && 0 < Portion(l, inc.side, inc.price, inc.qty, j)
    ensures FillTold(f, Match(f, l, inc, inc.qty, mid).outs, 3 * j, l, j, inc, mid)
  {
    hide Match, Queue, Share, Portion, Ahead;
    var outs := Match(f, l, inc, inc.qty, mid).outs;
    PortionIsShare(l, inc, inc.qty, j);
    MatchMessageAt(f, l, inc, inc.qty, mid, nextId, j);
    var three := outs[3 * j..3 * j + 3];
    assert outs[3 * j] == three[0] && outs[3 * j + 1] == three[1] && outs[3 * j + 2] == three[2];
  }

  lemma FillsShift(f: Flavor, head: seq<Output>, outs: seq<Output>, tail: seq<Output>, l: seq<Order>, inc: Incoming,
                   mid: OrderId)
    requires FillsTold(f, outs, 0, l, inc, mid)
    ensures FillsTold(f, head + outs + tail, |head|, l, inc, mid)
  {
    hide Portion, RestingTold, TakerTold, TradeTold;
    forall j | 0 <= j < |l| && 0 < Portion(l, inc.side, inc.price, inc.qty, j)
      ensures FillTold(f, head + outs + tail, |head| + 3 * j, l, j, inc, mid)
    {
      assert FillTold(f, outs, 0 + 3 * j, l, j, inc, mid);
    }
  }

  // ---------------------------------------------------------------- an order enters the book

  /** What rests of an incoming order. */
  predicate RestsOf(x: Order, inc: Incoming, left: int) {
    && x.ticker == inc.ticker && x.client == inc.client && x.coid == inc.coid && x.moid == inc.moid
    && x.otype == inc.otype && x.price == inc.price && x.side == inc.side && x.token == inc.token
    && x.initial == left && x.remaining == left
  }

  function LeftOf(b: Book, inc: Incoming): int {
    inc.qty - Taken(b.Orders(inc.side.Opposite()), inc.side, inc.price, inc.qty)
  }

  /**
   How b becomes b' when inc enters and the order `out` leaves: the opposite side gives its portions, and on its
   own side what is left of inc rests, if it is good till cancel, and nothing else changes.
   */
  ghost predicate Enters(b: Book, b': Book, inc: Incoming, out: OrderId) {
    && inc.moid == b.nextId && b'.nextId == b.nextId + 1
    && Took(b.Orders(inc.side.Opposite()), b'.Orders(inc.side.Opposite()), inc.side, inc.price, inc.qty)
    && (forall x: Order :: x in b'.Orders(inc.side) <==>
          || (x in b.Orders(inc.side) && x.moid != out)
          || (0 < LeftOf(b, inc) && inc.otype.GoodTillCancel? && RestsOf(x, inc, LeftOf(b, inc))))
  }

  lemma InsertMember(l: seq<Order>, o: Order, x: Order)
    ensures x in Insert(l, o) <==> x in l || x == o
  {
    var k, l' := InsertPos(o.side, l, o.price), Insert(l, o);
    assert l'[k] == o;
    if x in l {
      var i :| 0 <= i < |l| && l[i] == x;
      assert l'[if i < k then i else i + 1] == x;
    }
    if x in l' {
      var i :| 0 <= i < |l'| && l'[i] == x;
      InsertMembers(l, o, i);
    }
  }

  lemma RestsOnce(x: Order, inc: Incoming, left: nat)
    ensures RestsOf(x, inc, left) <==> x == Resting(inc, left)
  {
  }

  /** Settling inc in b0, which is b without the order `out`. */
  lemma SettleEnters(f: Flavor, b: Book, b0: Book, inc: Incoming, mid: OrderId, out: OrderId)
    requires BookInv(b) && inc.moid == b.nextId && b0.nextId == b.nextId + 1
    requires b0.Orders(inc.side.Opposite()) == b.Orders(inc.side.Opposite())
    requires forall x: Order :: x in b0.Orders(inc.side) <==> x in b.Orders(inc.side) && x.moid != out
    ensures var m := Match(f, b.Orders(inc.side.Opposite()), inc, inc.qty, mid);
            Enters(b, Settle(b0, inc, m.rest, m.left), inc, out) && m.left == LeftOf(b, inc)
  {
    hide SideInv, CrossInv, Uncrossed, Match, PriceTime.Insert, Took, Taken;
    var opp := b.Orders(inc.side.Opposite());
    var m := Match(f, opp, inc, inc.qty, mid);
    MatchTook(f, opp, inc, mid, b.nextId);
    forall x: Order
      ensures x in PriceTime.Insert(b0.Orders(inc.side), Resting(inc, m.left)) <==>
              x in b0.Orders(inc.side) || RestsOf(x, inc, m.left)
    {
      InsertMember(b0.Orders(inc.side), Resting(inc, m.left), x);
      RestsOnce(x, inc, m.left);
    }
  }

  // ---------------------------------------------------------------- what a new id trades

  lemma {:induction false} HoldsNone(l: seq<Order>, m: OrderId)
    requires forall i :: 0 <= i < |l| ==> l[i].moid != m
    ensures Held(l, m) == 0
  {
    if l != [] {
      HoldsNone(l[1..], m);
    }
  }

  lemma MatchTrades(f: Flavor, b: Book, inc: Incoming, mid: OrderId)
    requires BookInv(b) && inc.moid == b.nextId
    ensures var l := b.Orders(inc.side.Opposite());
            Total(Traded, Match(f, l, inc, inc.qty, mid).outs, inc.ticker, b.nextId) ==
            Taken(l, inc.side, inc.price, inc.qty)
  {
    var l := b.Orders(inc.side.Opposite());
    var m := Match(f, l, inc, inc.qty, mid);
    MatchMoves(f, l, inc, inc.qty, mid, b.nextId);
    MatchTook(f, l, inc, mid, b.nextId);
    NextIdInv(b);
    hide Match, Total, Held, Portion, Taken;
    assert forall i :: 0 <= i < |l| ==> b.Orders(inc.side.Opposite())[i].moid != b.nextId;
    HoldsNone(l, b.nextId);
    forall i | 0 <= i < |m.rest|
      ensures m.rest[i].moid != b.nextId
    {
      assert TookAt(l, m.rest, inc.side, inc.price, inc.qty, |l| - |m.rest| + i);
    }
    HoldsNone(m.rest, b.nextId);
  }
}
