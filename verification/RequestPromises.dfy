/** The promises kept: what every add, cancel and replace does to the book and tells, in terms of the request. */
module RequestPromises {
  import opened Types
  import opened PriceTime
  import opened BookInvariants
  import opened ShadowBook
  import opened Conservation
  import opened Promises

  // ---------------------------------------------------------------- add

  /** The order that an add asks for. */
  ghost predicate AskedFor(inc: Incoming, req: Request, coid: OrderId, side: Side, moid: OrderId) {
    && inc.ticker == req.ticker && inc.client == req.client && inc.coid == coid && inc.moid == moid
    && inc.otype == req.otype && inc.price == req.price && inc.qty == req.qty && inc.side == side
    && inc.token == req.token
  }

  ghost predicate AddTells(f: Flavor, b: Book, mid: OrderId, inc: Incoming, r: StepResult) {
    var n, left := r.mid - mid, LeftOf(b, inc);
    && 0 <= n && |r.outs| == 1 + 3 * n + (if left > 0 then 1 else 0)
    && NoticeTold(r.outs[0], inc, Accepted, inc.qty)
    && FillsTold(f, r.outs, 1, b.Orders(inc.side.Opposite()), inc, mid)
    && (left > 0 && inc.otype.GoodTillCancel? ==>
          UpdateTold(r.outs[1 + 3 * n], inc.ticker, Add, inc.moid, inc.side, inc.price, left, INVALID_ID))
    && (left > 0 && inc.otype.FillAndKill? ==> NoticeTold(r.outs[1 + 3 * n], inc, Canceled, left))
  }

  /** The number of fills is the number of positions that give something, which come first. */
  ghost predicate FillCount(l: seq<Order>, inc: Incoming, n: int) {
    && 0 <= n <= |l|
    && (forall j :: 0 <= j < |l| ==> (j < n <==> 0 < Portion(l, inc.side, inc.price, inc.qty, j)))
  }

  /** An add: who gives how much, what rests, and every message, field by field. */
  lemma AddPromise(f: Flavor, b: Book, mid: OrderId, req: Request, inc: Incoming)
    requires BookInv(b) && req.action == NewOrder && AskedFor(inc, req, req.coid, req.side, b.nextId)
    ensures var r, l := Step(f, b, mid, req), b.Orders(req.side.Opposite());
            && Enters(b, r.book, inc, b.nextId) && FillCount(l, inc, r.mid - mid) && AddTells(f, b, mid, inc, r)
            && Total(Traded, r.outs, req.ticker, b.nextId) == Taken(l, req.side, req.price, req.qty)
  {
    hide SideInv, CrossInv, Uncrossed, Match, Settle, Enters, Total, Taken, Portion;
    var b0, l := b.(nextId := b.nextId + 1), b.Orders(req.side.Opposite());
    assert inc == NewIncoming(b, req);
    var m, r := Match(f, l, inc, inc.qty, mid), Step(f, b, mid, req);
    NewestAbsent(b);
    SettleEnters(f, b, b0, inc, mid, b.nextId);
    MatchTold(f, l, inc, mid, b.nextId);
    var head, tail := [Private(Notice(inc, Accepted, inc.qty))], AddTail(inc, m.left);
    assert r.outs == head + m.outs + tail;
    FillsShift(f, head, m.outs, tail, l, inc, mid);
    MatchTrades(f, b, inc, mid);
    QuietTotals(head, m.outs, tail, req.ticker, b.nextId);
  }

  lemma NewestAbsent(b: Book)
    requires BookInv(b)
    ensures forall side: Side, x: Order :: x in b.Orders(side) ==> x.moid != b.nextId
  {
  }

  ghost predicate Quiet(outs: seq<Output>) {
    forall i :: 0 <= i < |outs| && outs[i].Private? ==> outs[i].resp.status != Executed
  }

  lemma {:induction false} QuietTotal(outs: seq<Output>, t: TickerId, m: OrderId)
    requires Quiet(outs)
    ensures Total(Traded, outs, t, m) == 0
  {
    if outs != [] {
      QuietTotal(outs[1..], t, m);
    }
  }

  lemma QuietTotals(head: seq<Output>, outs: seq<Output>, tail: seq<Output>, t: TickerId, m: OrderId)
    requires Quiet(head) && Quiet(tail)
    ensures Total(Traded, head + outs + tail, t, m) == Total(Traded, outs, t, m)
  {
    TotalConcat(Traded, head + outs, tail, t, m);
    TotalConcat(Traded, head, outs, t, m);
    QuietTotal(head, t, m);
    QuietTotal(tail, t, m);
  }

  // ---------------------------------------------------------------- cancel

  /** o is the order that a request names. */
  predicate Names(b: Book, req: Request, o: Order) {
    Has(b, o) && o.client == req.client && o.coid == req.coid
  }

  lemma NamedIsFound(b: Book, req: Request, o: Order)
    requires BookInv(b) && Names(b, req, o)
    ensures Present(b, req.client, req.coid) && Replaced(b, req) == o
    ensures SideOf(b, req.client, req.coid) == o.side
  {
    FindNothing(b.bids, req.client, req.coid);
    FindNothing(b.asks, req.client, req.coid);
    var side := SideOf(b, req.client, req.coid);
    KeysApart(b, o, b.Orders(side)[Find(b.Orders(side), req.client, req.coid)]);
  }

  lemma KeysApart(b: Book, o: Order, p: Order)
    requires BookInv(b) && Has(b, o) && Has(b, p) && HasKey(o, p.client, p.coid)
    ensures o == p
  {
  }

  lemma NobodyNamed(b: Book, req: Request)
    requires forall o: Order :: !Names(b, req, o)
    ensures !Present(b, req.client, req.coid)
  {
    if Present(b, req.client, req.coid) {
      var l := b.Orders(SideOf(b, req.client, req.coid));
      var o := l[Find(l, req.client, req.coid)];
      assert Names(b, req, o);
    }
  }

  /** A cancel, or a replace, of an order that the book does not hold is refused and changes nothing. */
  lemma UnknownPromise(f: Flavor, b: Book, mid: OrderId, req: Request)
    requires req.action != NewOrder && forall o: Order :: !Names(b, req, o)
    ensures var r := Step(f, b, mid, req); r.book == b && r.mid == mid && |r.outs| == 1 && UnknownTold(r.outs[0], req)
  {
    NobodyNamed(b, req);
  }

  /** A cancel of more than is left is refused, with what is left, and changes nothing. */
  lemma ExcessPromise(f: Flavor, b: Book, mid: OrderId, req: Request, o: Order)
    requires BookInv(b) && req.action == CancelOrder && Names(b, req, o) && req.qty > o.remaining
    ensures var r := Step(f, b, mid, req);
            && r.book == b && r.mid == mid && |r.outs| == 1
            && OwnerTold(r.outs[0], req, o, CancelRejected, o.remaining)
            && r.outs[0].resp.execPrice == INVALID_PRICE
  {
    NamedIsFound(b, req, o);
  }

  /** The shares that an accepted cancel takes: all, when none are given. */
  function Shares(req: Request, o: Order): nat {
    if req.qty == 0 then o.remaining else req.qty
  }

  /** An accepted cancel: the order keeps the rest, or is gone; every other order stays; two messages. */
  lemma CancelPromise(f: Flavor, b: Book, mid: OrderId, req: Request, o: Order)
    requires BookInv(b) && req.action == CancelOrder && Names(b, req, o) && req.qty <= o.remaining
    ensures var r, less := Step(f, b, mid, req), Shares(req, o);
            && r.mid == mid && r.book.nextId == b.nextId
            && (forall x: Order :: Has(r.book, x) <==>
                  || (Has(b, x) && x.moid != o.moid)
                  || (less < o.remaining && x == o.(remaining := o.remaining - less)))
            && |r.outs| == 2
            && UpdateTold(r.outs[0], req.ticker, Cancel, o.moid, o.side, o.price, less, INVALID_ID)
            && OwnerTold(r.outs[1], req, o, Canceled, if f.MapForm? then less else o.remaining - less)
            && r.outs[1].resp.execPrice == o.price
  {
    hide BookInv, Find;
    NamedIsFound(b, req, o);
    var l := b.Orders(o.side);
    var k := Find(l, req.client, req.coid);
    NamedRests(b, req, o);
    forall x: Order
      ensures Has(b.With(o.side, Remove(l, k)), x) <==> Has(b, x) && x.moid != o.moid
      ensures Has(b.With(o.side, l[k := o.(remaining := o.remaining - Shares(req, o))]), x) <==>
              x == o.(remaining := o.remaining - Shares(req, o)) || (Has(b, x) && x.moid != o.moid)
    {
      HasRemoved(b, o.side, k, x);
      HasResized(b, o.side, k, o.remaining - Shares(req, o), x);
    }
  }

  lemma NamedRests(b: Book, req: Request, o: Order)
    requires BookInv(b) && Names(b, req, o)
    ensures 0 < o.remaining
  {
  }

  // ---------------------------------------------------------------- replace

  /** A replace without a new id or without shares is refused and changes nothing. */
  lemma EmptyReplacePromise(f: Flavor, b: Book, mid: OrderId, req: Request)
    requires req.action == ModifyOrder && (req.newCoid == 0 || req.qty == 0)
    ensures var r := Step(f, b, mid, req); r.book == b && r.mid == mid && |r.outs| == 1 && UnknownTold(r.outs[0], req)
  {
  }

  ghost predicate ReplaceTells(f: Flavor, b: Book, mid: OrderId, inc: Incoming, was: OrderId, r: StepResult) {
    var n, left := r.mid - mid, LeftOf(b, inc);
    var ends := left > 0 && inc.otype.FillAndKill? && f.MapForm?;
    && 0 <= n && |r.outs| == 2 + 3 * n + (if ends then 2 else 0)
    && NoticeTold(r.outs[0], inc, Modified, inc.qty)
    && UpdateTold(r.outs[1], inc.ticker, Modify, was, inc.side, inc.price, inc.qty, inc.moid)
    && FillsTold(f, r.outs, 2, b.Orders(inc.side.Opposite()), inc, mid)
    && (ends ==>
          && NoticeTold(r.outs[2 + 3 * n], inc, Canceled, left)
          && UpdateTold(r.outs[3 + 3 * n], inc.ticker, Cancel, inc.moid, inc.side, inc.price, left, INVALID_ID))
  }

  lemma WithoutNamed(b: Book, req: Request, o: Order)
    requires BookInv(b) && Names(b, req, o)
    ensures Present(b, req.client, req.coid)
    ensures var b1 := WithoutReplaced(b, req);
            && b1.nextId == b.nextId + 1 && b1.Orders(o.side.Opposite()) == b.Orders(o.side.Opposite())
            && (forall x: Order :: x in b1.Orders(o.side) <==> x in b.Orders(o.side) && x.moid != o.moid)
  {
    NamedIsFound(b, req, o);
    var l := b.Orders(o.side);
    var k := Find(l, req.client, req.coid);
    forall x: Order
      ensures x in Remove(l, k) <==> x in l && x.moid != l[k].moid
    {
      RemoveMember(o.side, l, b.nextId, k, x);
    }
  }

  lemma RemoveMember(side: Side, l: seq<Order>, nextId: OrderId, k: nat, x: Order)
    requires SideInv(side, l, nextId) && k < |l|
    ensures x in Remove(l, k) <==> x in l && x.moid != l[k].moid
  {
    if x in l && x.moid != l[k].moid {
      var i :| 0 <= i < |l| && l[i] == x;
      assert Remove(l, k)[if i < k then i else i - 1] == x;
    }
    if x in Remove(l, k) {
      var i :| 0 <= i < |Remove(l, k)| && Remove(l, k)[i] == x;
      var j := if i < k then i else i + 1;
      assert l[j] == x && Apart(l[if j < k then j else k], l[if j < k then k else j]);
    }
  }

  /** An accepted replace: the old order leaves, its successor enters on the same side, and every message. */
  lemma ReplacePromise(f: Flavor, b: Book, mid: OrderId, req: Request, o: Order, inc: Incoming)
    requires BookInv(b) && req.action == ModifyOrder && Names(b, req, o) && req.newCoid != 0 && req.qty != 0
    requires AskedFor(inc, req, req.newCoid, o.side, b.nextId)
    ensures var r, l := Step(f, b, mid, req), b.Orders(o.side.Opposite());
            && Enters(b, r.book, inc, o.moid) && FillCount(l, inc, r.mid - mid)
            && ReplaceTells(f, b, mid, inc, o.moid, r)
            && Total(Traded, r.outs, req.ticker, b.nextId) == Taken(l, o.side, req.price, req.qty)
  {
    hide SideInv, CrossInv, Uncrossed, Match, Settle, Enters, Total, Taken, Portion, Find, WithoutReplaced;
    NamedIsFound(b, req, o);
    WithoutNamed(b, req, o);
    var b1, l := WithoutReplaced(b, req), b.Orders(o.side.Opposite());
    assert inc == ReplaceIncoming(b, req);
    var m, r := Match(f, l, inc, inc.qty, mid), Step(f, b, mid, req);
    assert m == ReplaceMatch(f, b, mid, req);
    SettleEnters(f, b, b1, inc, mid, o.moid);
    MatchTold(f, l, inc, mid, b.nextId);
    var head, tail := ReplaceHead(b, req), ReplaceTail(f, inc, m.left);
    assert r.outs == head + m.outs + tail;
    FillsShift(f, head, m.outs, tail, l, inc, mid);
    MatchTrades(f, b, inc, mid);
    QuietTotals(head, m.outs, tail, req.ticker, b.nextId);
  }
}
