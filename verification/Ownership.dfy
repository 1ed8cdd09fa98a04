/** Whose messages are whose: every response about a market order id goes to the client whose request introduced it. */
module Ownership {
  import opened Types
  import opened PriceTime
  import opened BookInvariants
  import opened EngineRun
  import opened Conservation
  import opened Promises

  /** The request that introduced each market order id. */
  type Origins = map<OrderId, Request>

  function OriginBy(b: Book, req: Request): Origins {
    if req.action == NewOrder || (req.action == ModifyOrder && ReplaceAccepted(b, req))
    then map[b.nextId := req] else map[]
  }

  /** The client order id that a request introduces. */
  function KeyOf(req: Request): OrderId {
    if req.action == NewOrder then req.coid else req.newCoid
  }

  /** Client, client order id, price and token are those of the introducing request. */
  predicate Belongs(origins: Origins, moid: OrderId, client: ClientId, coid: OrderId, price: Price, token: Token) {
    && moid in origins && origins[moid].client == client && KeyOf(origins[moid]) == coid
    && origins[moid].price == price && origins[moid].token == token
  }

  ghost predicate ListOwned(l: seq<Order>, origins: Origins) {
    forall i :: 0 <= i < |l| ==> Belongs(origins, l[i].moid, l[i].client, l[i].coid, l[i].price, l[i].token)
  }

  ghost predicate BookOwned(b: Book, origins: Origins) {
    && ListOwned(b.bids, origins) && ListOwned(b.asks, origins)
    && (forall id :: id in origins ==> id < b.nextId)
  }

  /** An execution is also within the limit of the request that asked for it. */
  predicate ReplyOwned(origins: Origins, r: Response) {
    && Belongs(origins, r.moid, r.client, r.coid, r.price, r.token)
    && (r.status == Executed ==> Within(r.side, origins[r.moid].price, r.execPrice))
  }

  ghost predicate OutsOwned(outs: seq<Output>, t: TickerId, origins: Origins) {
    forall i :: 0 <= i < |outs| && outs[i].Private? && outs[i].resp.ticker == t && outs[i].resp.moid != INVALID_ID ==>
      ReplyOwned(origins, outs[i].resp)
  }

  // ---------------------------------------------------------------- one request

  lemma {:induction false} MatchOwned(f: Flavor, opp: seq<Order>, inc: Incoming, left: Quantity, mid: OrderId,
                                      origins: Origins)
    requires ListOwned(opp, origins) && Belongs(origins, inc.moid, inc.client, inc.coid, inc.price, inc.token)
    ensures var m := Match(f, opp, inc, left, mid); ListOwned(m.rest, origins) && OutsOwned(m.outs, inc.ticker, origins)
    decreases |opp|, left
  {
    if !Stops(opp, inc, left) {
      var s := FillFront(f, opp, inc, left, mid);
      MatchOwned(f, s.rest, inc, s.left, s.mid, origins);
    }
  }

  lemma InsertOwned(l: seq<Order>, o: Order, origins: Origins)
    requires ListOwned(l, origins) && Belongs(origins, o.moid, o.client, o.coid, o.price, o.token)
    ensures ListOwned(Insert(l, o), origins)
  {
    forall i | 0 <= i < |Insert(l, o)|
      ensures var x := Insert(l, o)[i]; Belongs(origins, x.moid, x.client, x.coid, x.price, x.token)
    {
      InsertMembers(l, o, i);
    }
  }

  lemma RemoveOwned(l: seq<Order>, k: nat, origins: Origins)
    requires ListOwned(l, origins) && k < |l|
    ensures ListOwned(Remove(l, k), origins)
  {
    assert forall i :: 0 <= i < |Remove(l, k)| ==> Remove(l, k)[i] == l[if i < k then i else i + 1];
  }

  lemma SettleOwned(f: Flavor, b: Book, inc: Incoming, mid: OrderId, origins: Origins)
    requires ListOwned(b.bids, origins) && ListOwned(b.asks, origins)
    requires Belongs(origins, inc.moid, inc.client, inc.coid, inc.price, inc.token)
    ensures var m := Match(f, b.Orders(inc.side.Opposite()), inc, inc.qty, mid);
            var b' := Settle(b, inc, m.rest, m.left);
            && ListOwned(b'.bids, origins) && ListOwned(b'.asks, origins) && b'.nextId == b.nextId
            && OutsOwned(m.outs, inc.ticker, origins)
  {
    hide Match, ListOwned, PriceTime.Insert, OutsOwned;
    var m := Match(f, b.Orders(inc.side.Opposite()), inc, inc.qty, mid);
    MatchOwned(f, b.Orders(inc.side.Opposite()), inc, inc.qty, mid, origins);
    InsertOwned(b.Orders(inc.side), Resting(inc, m.left), origins);
  }

  /** A new id leaves the ownership of older ones as it was. */
  lemma MoreOrigins(b: Book, origins: Origins, more: Origins)
    requires BookOwned(b, origins) && more.Keys <= {b.nextId}
    ensures ListOwned(b.bids, origins + more) && ListOwned(b.asks, origins + more)
  {
  }

  lemma AddOwned(f: Flavor, b: Book, mid: OrderId, req: Request, origins: Origins)
    requires BookOwned(b, origins) && req.action == NewOrder
    ensures var r, all := AddStep(f, b, mid, req), origins + OriginBy(b, req);
            BookOwned(r.book, all) && OutsOwned(r.outs, req.ticker, all)
  {
    hide Match, Settle, ListOwned;
    var inc, all := NewIncoming(b, req), origins + OriginBy(b, req);
    MoreOrigins(b, origins, OriginBy(b, req));
    SettleOwned(f, b.(nextId := b.nextId + 1), inc, mid, all);
  }

  lemma CancelOwned(f: Flavor, b: Book, mid: OrderId, req: Request, origins: Origins)
    requires BookOwned(b, origins) && req.action == CancelOrder
    ensures var r := CancelStep(f, b, mid, req); BookOwned(r.book, origins) && OutsOwned(r.outs, req.ticker, origins)
  {
    if Present(b, req.client, req.coid) {
      var l := b.Orders(SideOf(b, req.client, req.coid));
      RemoveOwned(l, Find(l, req.client, req.coid), origins);
    }
  }

  lemma ReplaceOwned(f: Flavor, b: Book, mid: OrderId, req: Request, origins: Origins)
    requires BookOwned(b, origins) && req.action == ModifyOrder
    ensures var r, all := ReplaceStep(f, b, mid, req), origins + OriginBy(b, req);
            BookOwned(r.book, all) && OutsOwned(r.outs, req.ticker, all)
  {
    hide Match, Settle, ListOwned;
    var all := origins + OriginBy(b, req);
    if ReplaceAccepted(b, req) {
      var l := b.Orders(SideOf(b, req.client, req.coid));
      MoreOrigins(b, origins, OriginBy(b, req));
      RemoveOwned(l, Find(l, req.client, req.coid), all);
      SettleOwned(f, WithoutReplaced(b, req), ReplaceIncoming(b, req), mid, all);
    } else {
      assert all == origins;
    }
  }

  lemma StepOwned(f: Flavor, b: Book, mid: OrderId, req: Request, origins: Origins)
    requires BookOwned(b, origins)
    ensures var r, all := Step(f, b, mid, req), origins + OriginBy(b, req);
            BookOwned(r.book, all) && OutsOwned(r.outs, req.ticker, all)
  {
    hide BookOwned, OutsOwned, AddStep, CancelStep, ReplaceStep;
    match req.action
    case NewOrder => AddOwned(f, b, mid, req, origins);
    case CancelOrder =>
      assert origins + OriginBy(b, req) == origins;
      CancelOwned(f, b, mid, req, origins);
    case ModifyOrder => ReplaceOwned(f, b, mid, req, origins);
  }

  // ---------------------------------------------------------------- whole runs

  function OriginsOf(f: Flavor, n: nat, reqs: seq<Request>, t: TickerId): Origins
    requires InRange(n, reqs) && t < n
  {
    if reqs == [] then map[]
    else
      var before := OriginsOf(f, n, Init(reqs), t);
      if Last(reqs).ticker != t then before
      else before + OriginBy(Run(f, n, Init(reqs)).engine.books[t], Last(reqs))
  }

  lemma OutsStay(b: Book, outs: seq<Output>, t: TickerId, origins: Origins, more: Origins)
    requires BookOwned(b, origins) && OutsOwned(outs, t, origins) && more.Keys <= {b.nextId}
    ensures OutsOwned(outs, t, origins + more)
  {
  }

  lemma OtherOuts(outs: seq<Output>, t: TickerId, t': TickerId, origins: Origins)
    requires AllOf(outs, t') && t != t'
    ensures OutsOwned(outs, t, origins)
  {
  }

  lemma OutsConcat(a: seq<Output>, b: seq<Output>, t: TickerId, origins: Origins)
    requires OutsOwned(a, t, origins) && OutsOwned(b, t, origins)
    ensures OutsOwned(a + b, t, origins)
  {
  }

  /**
   Over every run of either engine: every response that names a market order id goes to the client whose request
   introduced that id, under the client order id, price and token of that request; and every execution is within
   that request's limit.
   */
  lemma {:induction false} RunOwned(f: Flavor, n: nat, reqs: seq<Request>, t: TickerId)
    requires InRange(n, reqs) && t < n
    ensures var r, origins := Run(f, n, reqs), OriginsOf(f, n, reqs, t);
            && BookOwned(r.engine.books[t], origins) && OutsOwned(r.outs, t, origins)
            && (forall id :: id in origins ==> origins[id] in reqs && origins[id].ticker == t)
  {
    hide Step, BookOwned, OutsOwned;
    if reqs == [] {
      BootOwned(f, n, t);
    } else {
      RunOwned(f, n, Init(reqs), t);
      var r, req, before := Run(f, n, Init(reqs)), Last(reqs), OriginsOf(f, n, Init(reqs), t);
      var b := r.engine.books[req.ticker];
      var s := Step(f, b, r.engine.mid, req);
      StepTicker(f, b, r.engine.mid, req);
      if req.ticker == t {
        StepOwned(f, b, r.engine.mid, req, before);
        OutsStay(b, r.outs, t, before, OriginBy(b, req));
      } else {
        OtherOuts(s.outs, t, req.ticker, before);
      }
      OutsConcat(r.outs, s.outs, t, OriginsOf(f, n, reqs, t));
      assert reqs == Init(reqs) + [req];
    }
  }

  lemma BootOwned(f: Flavor, n: nat, t: TickerId)
    requires t < n
    ensures BookOwned(Run(f, n, []).engine.books[t], map[]) && OutsOwned([], t, map[])
  {
  }
}
