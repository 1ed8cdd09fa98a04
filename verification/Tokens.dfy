/** OUCH order tokens: scoped per client, resolved to the newest registration, ids never reused. */
module Tokens {
  import opened Types
  import opened EngineRun

  datatype Info = Info(token: Token, ticker: TickerId, client: ClientId)

  /** The inbound messages, as far as decoding looks at them. */
  datatype Ouch =
    | Enter(token: Token, stock: nat, timeInForce: nat, sideChar: char, price: nat, shares: nat)
    | CancelMsg(token: Token, shares: nat)
    | ReplaceMsg(existing: Token, replacement: Token, timeInForce: nat, price: nat, shares: nat)

  // ---------------------------------------------------------------- registrations as a log

  /** The newest id that this client registered for this token, or 0; ids count registrations from 1. */
  function Newest(regs: seq<Info>, client: ClientId, token: Token): (id: OrderId)
    ensures id <= |regs|
    ensures id != 0 ==> regs[id - 1].client == client && regs[id - 1].token == token
    ensures forall i :: id <= i < |regs| ==> !(regs[i].client == client && regs[i].token == token)
  {
    if regs == [] then 0
    else if Last(regs).client == client && Last(regs).token == token then |regs|
    else Newest(Init(regs), client, token)
  }

  function OrderTypeOf(timeInForce: nat): OrderType {
    if timeInForce == 0 then FillAndKill else GoodTillCancel
  }

  /** What one message does: the registrations afterwards, and the request if it was decoded. */
  datatype Decoded = Decoded(regs: seq<Info>, req: Option<Request>)

  function Register(regs: seq<Info>, capacity: nat, info: Info): (seq<Info>, OrderId) {
    if |regs| >= capacity then (regs, 0) else (regs + [info], |regs| + 1)
  }

  function DecodeMsg(regs: seq<Info>, capacity: nat, client: ClientId, msg: Ouch): Decoded {
    match msg
    case Enter(token, stock, tif, sideChar, price, shares) =>
      var ticker := stock % WORD;
      var (regs', id) := Register(regs, capacity, Info(token, ticker, client));
      if id == 0 then Decoded(regs', None)
      else Decoded(regs', Some(Request(NewOrder, client, id, 0, price % WORD, ticker, shares % WORD, OrderTypeOf(tif),
                                       if sideChar == 'B' then Buy else Sell, token)))
    case CancelMsg(token, shares) =>
      var id := Newest(regs, client, token);
      if id == 0 then Decoded(regs, None)
      else Decoded(regs, Some(Request(CancelOrder, client, id, 0, 0, regs[id - 1].ticker, shares % WORD, GoodTillCancel,
                                      Buy, token)))
    case ReplaceMsg(existing, replacement, tif, price, shares) =>
      var id := Newest(regs, client, existing);
      if id == 0 then Decoded(regs, None)
      else
        var ticker := regs[id - 1].ticker;
        var (regs', newId) := Register(regs, capacity, Info(replacement, ticker, client));
        if newId == 0 then Decoded(regs', None)
        else Decoded(regs', Some(Request(ModifyOrder, client, id, newId, price % WORD, ticker, shares % WORD,
                                         OrderTypeOf(tif), Buy, replacement)))
  }

  datatype Inbound = Inbound(client: ClientId, msg: Ouch)

  datatype Session = Session(regs: seq<Info>, reqs: seq<Request>)

  function AsRequest(r: Option<Request>): seq<Request> {
    if r.Some? then [r.value] else []
  }

  function DecodeAll(s: Session, capacity: nat, inbound: seq<Inbound>): Session {
    if inbound == [] then s
    else
      var s' := DecodeAll(s, capacity, Init(inbound));
      var d := DecodeMsg(s'.regs, capacity, Last(inbound).client, Last(inbound).msg);
      Session(d.regs, s'.reqs + AsRequest(d.req))
  }

  lemma DecodeSnoc(s: Session, capacity: nat, inbound: seq<Inbound>, x: Inbound)
    ensures var s' := DecodeAll(s, capacity, inbound);
            var d := DecodeMsg(s'.regs, capacity, x.client, x.msg);
            DecodeAll(s, capacity, inbound + [x]) == Session(d.regs, s'.reqs + AsRequest(d.req))
  {
    assert Init(inbound + [x]) == inbound && Last(inbound + [x]) == x;
  }

  /** Reads may be split anywhere: decoding continues where it stopped. */
  lemma {:induction false} DecodeConcat(s: Session, capacity: nat, a: seq<Inbound>, b: seq<Inbound>)
    ensures DecodeAll(s, capacity, a + b) == DecodeAll(DecodeAll(s, capacity, a), capacity, b)
    decreases |b|
  {
    if b == [] {
      assert a + b == a;
    } else {
      assert Init(a + b) == a + Init(b) && Last(a + b) == Last(b);
      DecodeConcat(s, capacity, a, Init(b));
    }
  }

  // ---------------------------------------------------------------- what every session keeps

  /** The id a request brings in, if any. */
  function NewIdOf(req: Request): OrderId {
    match req.action
    case NewOrder => req.coid
    case CancelOrder => 0
    case ModifyOrder => req.newCoid
  }

  /** A request's ids were registered by its own client, and it carries the ticker they were registered for. */
  ghost predicate Scoped(regs: seq<Info>, req: Request) {
    && 0 < req.coid <= |regs| && regs[req.coid - 1].client == req.client && regs[req.coid - 1].ticker == req.ticker
    && (req.action == ModifyOrder ==>
          && req.coid < req.newCoid <= |regs|
          && regs[req.newCoid - 1].client == req.client && regs[req.newCoid - 1].ticker == req.ticker)
  }

  /** New ids strictly increase, so none is ever reused. */
  ghost predicate Increasing(reqs: seq<Request>, bound: OrderId) {
    && (forall i :: 0 <= i < |reqs| ==> NewIdOf(reqs[i]) <= bound)
    && (forall i, j :: 0 <= i < j < |reqs| && NewIdOf(reqs[j]) != 0 ==> NewIdOf(reqs[i]) < NewIdOf(reqs[j]))
  }

  ghost predicate SessionInv(s: Session) {
    && (forall i :: 0 <= i < |s.reqs| ==> Scoped(s.regs, s.reqs[i]))
    && Increasing(s.reqs, |s.regs|)
  }

  lemma ScopedGrows(regs: seq<Info>, regs': seq<Info>, req: Request)
    requires Scoped(regs, req) && regs <= regs'
    ensures Scoped(regs', req)
  {
    assert forall i :: 0 <= i < |regs| ==> regs'[i] == regs[i];
  }

  lemma DecodeKeeps(s: Session, capacity: nat, client: ClientId, msg: Ouch)
    requires SessionInv(s)
    ensures var d := DecodeMsg(s.regs, capacity, client, msg);
            s.regs <= d.regs && SessionInv(Session(d.regs, s.reqs + AsRequest(d.req)))
  {
    var d := DecodeMsg(s.regs, capacity, client, msg);
    assert s.regs <= d.regs;
    var reqs := s.reqs + AsRequest(d.req);
    forall i | 0 <= i < |reqs|
      ensures Scoped(d.regs, reqs[i])
    {
      if i < |s.reqs| {
        assert reqs[i] == s.reqs[i];
        ScopedGrows(s.regs, d.regs, s.reqs[i]);
      } else {
        assert d.req.Some? && reqs[i] == d.req.value;
      }
    }
  }

  lemma {:induction false} SessionKeeps(capacity: nat, inbound: seq<Inbound>)
    ensures SessionInv(DecodeAll(Session([], []), capacity, inbound))
  {
    if inbound != [] {
      SessionKeeps(capacity, Init(inbound));
      var s, x := DecodeAll(Session([], []), capacity, Init(inbound)), Last(inbound);
      DecodeKeeps(s, capacity, x.client, x.msg);
    }
  }

  /** The requests of any session meet the books' freshness precondition. */
  lemma SessionNeverReuses(capacity: nat, inbound: seq<Inbound>)
    ensures NeverReused(DecodeAll(Session([], []), capacity, inbound).reqs)
  {
    SessionKeeps(capacity, inbound);
    var s := DecodeAll(Session([], []), capacity, inbound);
    forall i, j | 0 <= i < j < |s.reqs|
      ensures Intro(s.reqs[i]) !! Intro(s.reqs[j])
    {
      assert Scoped(s.regs, s.reqs[i]) && Scoped(s.regs, s.reqs[j]);
      assert NewIdOf(s.reqs[j]) != 0 ==> NewIdOf(s.reqs[i]) < NewIdOf(s.reqs[j]);
    }
  }

  // ---------------------------------------------------------------- tickers through chains of replacements

  /** parents[i] is 0 for an entered order and the replaced id for a replacement. */
  ghost predicate Lineage(regs: seq<Info>, parents: seq<OrderId>) {
    && |parents| == |regs|
    && (forall i :: 0 <= i < |regs| ==> parents[i] <= i)
    && (forall i :: 0 <= i < |regs| && parents[i] != 0 ==>
          regs[i].ticker == regs[parents[i] - 1].ticker && regs[i].client == regs[parents[i] - 1].client)
  }

  function Root(parents: seq<OrderId>, id: OrderId): OrderId
    requires 0 < id <= |parents| && forall i :: 0 <= i < |parents| ==> parents[i] <= i
    decreases id
  {
    if parents[id - 1] == 0 then id else Root(parents, parents[id - 1])
  }

  function ParentOf(regs: seq<Info>, client: ClientId, msg: Ouch): OrderId {
    if msg.ReplaceMsg? then Newest(regs, client, msg.existing) else 0
  }

  function ParentsAfter(capacity: nat, inbound: seq<Inbound>): seq<OrderId> {
    if inbound == [] then []
    else
      var s, x := DecodeAll(Session([], []), capacity, Init(inbound)), Last(inbound);
      var d := DecodeMsg(s.regs, capacity, x.client, x.msg);
      ParentsAfter(capacity, Init(inbound)) + if |d.regs| > |s.regs| then [ParentOf(s.regs, x.client, x.msg)] else []
  }

  lemma LineageGrows(regs: seq<Info>, parents: seq<OrderId>, info: Info, parent: OrderId)
    requires Lineage(regs, parents) && parent <= |regs|
    requires parent != 0 ==> info.ticker == regs[parent - 1].ticker && info.client == regs[parent - 1].client
    ensures Lineage(regs + [info], parents + [parent])
  {
  }

  lemma LineageStep(regs: seq<Info>, parents: seq<OrderId>, capacity: nat, client: ClientId, msg: Ouch)
    requires Lineage(regs, parents)
    ensures var d := DecodeMsg(regs, capacity, client, msg);
            Lineage(d.regs, parents + if |d.regs| > |regs| then [ParentOf(regs, client, msg)] else [])
  {
    hide Lineage;
    var d := DecodeMsg(regs, capacity, client, msg);
    if |d.regs| > |regs| {
      LineageGrows(regs, parents, d.regs[|regs|], ParentOf(regs, client, msg));
      assert d.regs == regs + [d.regs[|regs|]];
    } else {
      assert parents + [] == parents && d.regs == regs;
    }
  }

  lemma {:induction false} LineageHolds(capacity: nat, inbound: seq<Inbound>)
    ensures Lineage(DecodeAll(Session([], []), capacity, inbound).regs, ParentsAfter(capacity, inbound))
  {
    hide DecodeMsg;
    if inbound != [] {
      LineageHolds(capacity, Init(inbound));
      var s, x := DecodeAll(Session([], []), capacity, Init(inbound)), Last(inbound);
      LineageStep(s.regs, ParentsAfter(capacity, Init(inbound)), capacity, x.client, x.msg);
    }
  }

  /** A replacement trades the ticker, for the client, of the order its chain started with. */
  lemma {:induction false} TickerInherited(regs: seq<Info>, parents: seq<OrderId>, id: OrderId)
    requires Lineage(regs, parents) && 0 < id <= |regs|
    ensures var root := Root(parents, id);
            && 0 < root <= id && parents[root - 1] == 0
            && regs[id - 1].ticker == regs[root - 1].ticker && regs[id - 1].client == regs[root - 1].client
    decreases id
  {
    if parents[id - 1] != 0 {
      TickerInherited(regs, parents, parents[id - 1]);
    }
  }

  // ---------------------------------------------------------------- the class

  type Lookup = map<ClientId, map<Token, OrderId>>

  function GetFrom(m: Lookup, client: ClientId, token: Token): OrderId {
    if client in m && token in m[client] then m[client][token] else 0
  }

  class OrderTokenManager {
    var idToToken: seq<Info>  // slot 0 is never used
    var tokenToId: Lookup
    var nextInternalId: OrderId
    ghost var regs: seq<Info>

    ghost predicate Valid()
      reads this
    {
      && nextInternalId == |regs| + 1 <= |idToToken|
      && idToToken[1..nextInternalId] == regs
      && (forall client, token :: GetFrom(tokenToId, client, token) == Newest(regs, client, token))
    }

    ghost function Capacity(): nat
      reads this
      requires Valid()
    {
      |idToToken| - 1
    }

    constructor (size: nat)
      ensures Valid() && regs == [] && Capacity() == size
    {
      idToToken := seq(size + 1, _ => Info([], 0, 0));
      tokenToId, nextInternalId, regs := map[], 1, [];
    }

    /** The id of the new registration, or 0 once the pool is exhausted. */
    method RegisterNewToken(client: ClientId, token: Token, ticker: TickerId) returns (id: OrderId)
      requires Valid()
      modifies this
      ensures Valid() && Capacity() == old(Capacity())
      ensures (regs, id) == Register(old(regs), Capacity(), Info(token, ticker, client))
    {
      if nextInternalId >= |idToToken| {
        return 0;
      }
      var info := Info(token, ticker, client);
      idToToken := idToToken[nextInternalId := info];
      var clientMap: map<Token, OrderId> := if client in tokenToId then tokenToId[client] else map[];
      tokenToId := tokenToId[client := clientMap[token := nextInternalId]];
      id := nextInternalId;
      nextInternalId := nextInternalId + 1;
      regs := regs + [info];
      forall c, t
        ensures GetFrom(tokenToId, c, t) == Newest(regs, c, t)
      {
        assert Init(regs) == old(regs) && Last(regs) == info;
        assert GetFrom(old(tokenToId), c, t) == Newest(old(regs), c, t);
      }
    }

    method GetID(client: ClientId, token: Token) returns (id: OrderId)
      requires Valid()
      ensures id == Newest(regs, client, token)
    {
      assert GetFrom(tokenToId, client, token) == Newest(regs, client, token);
      if client !in tokenToId {
        return 0;
      }
      if token in tokenToId[client] {
        return tokenToId[client][token];
      }
      return 0;
    }

    method GetToken(id: OrderId) returns (token: Option<Token>)
      requires Valid()
      ensures token == if 0 < id <= |regs| then Some(regs[id - 1].token) else None
    {
      if 0 < id < nextInternalId {
        assert idToToken[id] == idToToken[1..nextInternalId][id - 1];
        return Some(idToToken[id].token);
      }
      return None;
    }

    method DecodeOuch(client: ClientId, msg: Ouch) returns (req: Option<Request>)
      requires Valid()
      modifies this
      ensures Valid() && Capacity() == old(Capacity())
      ensures Decoded(regs, req) == DecodeMsg(old(regs), Capacity(), client, msg)
    {
      hide Newest;
      match msg
      case Enter(token, stock, tif, sideChar, price, shares) =>
        var ticker := stock % WORD;
        var id := RegisterNewToken(client, token, ticker);
        if id == 0 {
          return None;
        }
        req := Some(Request(NewOrder, client, id, 0, price % WORD, ticker, shares % WORD, OrderTypeOf(tif),
                            if sideChar == 'B' then Buy else Sell, token));
      case CancelMsg(token, shares) =>
        var id := GetID(client, token);
        if id == 0 {
          return None;
        }
        assert idToToken[id] == idToToken[1..nextInternalId][id - 1];
        req := Some(Request(CancelOrder, client, id, 0, 0, idToToken[id].ticker, shares % WORD, GoodTillCancel, Buy,
                            token));
      case ReplaceMsg(existing, replacement, tif, price, shares) =>
        var id := GetID(client, existing);
        if id == 0 {
          return None;
        }
        assert idToToken[id] == idToToken[1..nextInternalId][id - 1];
        var ticker := idToToken[id].ticker;
        var newId := RegisterNewToken(client, replacement, ticker);
        if newId == 0 {
          return None;
        }
        req := Some(Request(ModifyOrder, client, id, newId, price % WORD, ticker, shares % WORD, OrderTypeOf(tif), Buy,
                            replacement));
    }
  }
}
