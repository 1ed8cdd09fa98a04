/** What a client's message asks for is what the engine is asked for, over every session and field by field. */
module SessionPromises {
  import opened Types
  import opened EngineRun
  import opened Tokens

  /** The registrations when message k arrives. */
  ghost function RegsBefore(capacity: nat, inbound: seq<Inbound>, k: nat): seq<Info>
    requires k <= |inbound|
  {
    DecodeAll(Session([], []), capacity, inbound[..k]).regs
  }

  /** This client has registered this token. */
  ghost predicate Registered(regs: seq<Info>, client: ClientId, token: Token) {
    exists i :: 0 <= i < |regs| && regs[i].client == client && regs[i].token == token
  }

  /** id is the newest registration of this token by this client; ids count registrations from 1. */
  ghost predicate Resolves(regs: seq<Info>, client: ClientId, token: Token, id: OrderId) {
    && 0 < id <= |regs| && regs[id - 1].client == client && regs[id - 1].token == token
    && (forall i :: id <= i < |regs| ==> regs[i].client != client || regs[i].token != token)
  }

  /** The messages that become requests: the rest name an unknown token or find the pool exhausted. */
  ghost predicate Understood(regs: seq<Info>, capacity: nat, x: Inbound) {
    match x.msg
    case Enter(_, _, _, _, _, _) => |regs| < capacity
    case CancelMsg(token, _) => Registered(regs, x.client, token)
    case ReplaceMsg(existing, _, _, _, _) => Registered(regs, x.client, existing) && |regs| < capacity
  }

  /** The request asks for what the message says. */
  ghost predicate Conveys(regs: seq<Info>, x: Inbound, req: Request) {
    && req.client == x.client
    && match x.msg
       case Enter(token, stock, timeInForce, sideChar, price, shares) =>
         && req.action == NewOrder && req.coid == |regs| + 1 && req.token == token && req.ticker == stock % WORD
         && (req.side == Buy <==> sideChar == 'B') && (req.otype == FillAndKill <==> timeInForce == 0)
         && req.price == price % WORD && req.qty == shares % WORD
       case CancelMsg(token, shares) =>
         && req.action == CancelOrder && Resolves(regs, x.client, token, req.coid) && req.token == token
         && req.ticker == regs[req.coid - 1].ticker && req.qty == shares % WORD
       case ReplaceMsg(existing, replacement, timeInForce, price, shares) =>
         && req.action == ModifyOrder && Resolves(regs, x.client, existing, req.coid) && req.newCoid == |regs| + 1
         && req.token == replacement && req.ticker == regs[req.coid - 1].ticker
         && (req.otype == FillAndKill <==> timeInForce == 0)
         && req.price == price % WORD && req.qty == shares % WORD
  }

  /** An understood Enter or Replace registers its token for its client, on the ticker it trades. */
  ghost predicate Registers(regs: seq<Info>, regs': seq<Info>, capacity: nat, x: Inbound) {
    match x.msg
    case Enter(token, stock, _, _, _, _) =>
      regs' == if |regs| < capacity then regs + [Info(token, stock % WORD, x.client)] else regs
    case CancelMsg(_, _) => regs' == regs
    case ReplaceMsg(existing, replacement, _, _, _) =>
      if !Understood(regs, capacity, x) then regs' == regs
      else exists id :: Resolves(regs, x.client, existing, id) &&
                        regs' == regs + [Info(replacement, regs[id - 1].ticker, x.client)]
  }

  lemma NewestResolves(regs: seq<Info>, client: ClientId, token: Token)
    ensures var id := Newest(regs, client, token);
            && (id == 0 <==> !Registered(regs, client, token))
            && (id != 0 ==> Resolves(regs, client, token, id))
  {
  }

  lemma DecodePromise(regs: seq<Info>, capacity: nat, x: Inbound)
    ensures var d := DecodeMsg(regs, capacity, x.client, x.msg);
            && (d.req.Some? <==> Understood(regs, capacity, x))
            && (d.req.Some? ==> Conveys(regs, x, d.req.value))
            && Registers(regs, d.regs, capacity, x)
  {
    hide Newest;
    match x.msg
    case Enter(_, _, _, _, _, _) =>
    case CancelMsg(token, _) => NewestResolves(regs, x.client, token);
    case ReplaceMsg(existing, _, _, _, _) => NewestResolves(regs, x.client, existing);
  }

  // ---------------------------------------------------------------- whole sessions

  /** The positions of the messages that became requests, in order. */
  ghost function Heard(capacity: nat, inbound: seq<Inbound>): seq<nat> {
    if inbound == [] then []
    else
      var before, k := Heard(capacity, Init(inbound)), |inbound| - 1;
      if Understood(RegsBefore(capacity, inbound, k), capacity, inbound[k]) then before + [k] else before
  }

  ghost predicate Ordered(at: seq<nat>, bound: nat) {
    && (forall i :: 0 <= i < |at| ==> at[i] < bound)
    && (forall i, j :: 0 <= i < j < |at| ==> at[i] < at[j])
  }

  /**
   Over every session: the requests are those of the understood messages, one each and in the order of arrival,
   and every request asks for what its message says; an understood message is never dropped.
   */
  lemma {:induction false} SessionConveys(capacity: nat, inbound: seq<Inbound>)
    ensures var reqs, at := DecodeAll(Session([], []), capacity, inbound).reqs, Heard(capacity, inbound);
            && |at| == |reqs| && Ordered(at, |inbound|)
            && (forall i :: 0 <= i < |reqs| ==> Conveys(RegsBefore(capacity, inbound, at[i]), inbound[at[i]], reqs[i]))
            && (forall k :: 0 <= k < |inbound| ==>
                  (k in at <==> Understood(RegsBefore(capacity, inbound, k), capacity, inbound[k])))
  {
    hide DecodeAll, RegsBefore, Conveys, Understood, Heard;
    if inbound == [] {
      NothingHeard(capacity);
    } else {
      var before, k := Init(inbound), |inbound| - 1;
      SessionConveys(capacity, before);
      HeardOnce(capacity, inbound);
      LastMessage(capacity, inbound);
      forall i | 0 <= i < k
        ensures RegsBefore(capacity, inbound, i) == RegsBefore(capacity, before, i) && inbound[i] == before[i]
      {
        SamePrefix(capacity, inbound, i);
      }
    }
  }

  lemma NothingHeard(capacity: nat)
    ensures Heard(capacity, []) == [] && DecodeAll(Session([], []), capacity, []).reqs == []
  {
  }

  lemma SamePrefix(capacity: nat, inbound: seq<Inbound>, i: nat)
    requires i < |inbound|
    ensures RegsBefore(capacity, inbound, i) == RegsBefore(capacity, Init(inbound), i)
  {
    assert inbound[..i] == Init(inbound)[..i];
  }

  /** The last message adds its request, if it is understood, and nothing else. */
  lemma LastMessage(capacity: nat, inbound: seq<Inbound>)
    requires inbound != []
    ensures var k, s := |inbound| - 1, DecodeAll(Session([], []), capacity, Init(inbound));
            var regs, reqs := RegsBefore(capacity, inbound, k), DecodeAll(Session([], []), capacity, inbound).reqs;
            if Understood(regs, capacity, inbound[k])
            then |reqs| == |s.reqs| + 1 && reqs[..|s.reqs|] == s.reqs && Conveys(regs, inbound[k], reqs[|s.reqs|])
            else reqs == s.reqs
  {
    hide DecodeMsg, Conveys, Understood;
    var k, s := |inbound| - 1, DecodeAll(Session([], []), capacity, Init(inbound));
    assert inbound[..k] == Init(inbound);
    DecodePromise(s.regs, capacity, inbound[k]);
  }

  lemma HeardOnce(capacity: nat, inbound: seq<Inbound>)
    requires inbound != [] && Ordered(Heard(capacity, Init(inbound)), |inbound| - 1)
    ensures var k, before := |inbound| - 1, Heard(capacity, Init(inbound));
            && Heard(capacity, inbound) ==
               (if Understood(RegsBefore(capacity, inbound, k), capacity, inbound[k]) then before + [k] else before)
            && k !in before && Ordered(Heard(capacity, inbound), |inbound|)
  {
  }
}
