/** The shortest runs on which a promise of the documentation fails, one for each way it can fail. */
module Counterexamples {
  import opened Types
  import opened PriceTime
  import opened Greedy
  import opened EngineRun
  import opened ShadowBook
  import opened ShadowAgreement
  import opened ShadowCover
  import opened Publisher
  import opened Recovery
  import opened RecoveryRuns

  // One ticker. Client 7 bids for 10 at 100, client 8 offers 5 at 110.
  const BID := Request(NewOrder, 7, 1, 0, 100, 0, 10, GoodTillCancel, Buy, "")
  const ASK := Request(NewOrder, 8, 2, 0, 110, 0, 5, GoodTillCancel, Sell, "")
  const TAKE := Request(NewOrder, 7, 1, 0, 110, 0, 5, GoodTillCancel, Buy, "")
  const TRIM := Request(CancelOrder, 7, 1, 0, 0, 0, 4, GoodTillCancel, Buy, "")

  // Replacements of the bid: it trades 5 and rests 3, is filled, finds nothing, or moves away.
  const LIFT := Request(ModifyOrder, 7, 1, 3, 110, 0, 8, GoodTillCancel, Buy, "")
  const FILL := Request(ModifyOrder, 7, 1, 3, 110, 0, 5, FillAndKill, Buy, "")
  const MISS := Request(ModifyOrder, 7, 1, 3, 100, 0, 8, FillAndKill, Buy, "")
  const MOVE := Request(ModifyOrder, 7, 1, 3, 90, 0, 6, GoodTillCancel, Buy, "")

  const BID_ORDER := Order(0, 7, 1, 1, GoodTillCancel, 100, 10, 10, Buy, "")

  function AskOrder(moid: OrderId): Order {
    Order(0, 8, 2, moid, GoodTillCancel, 110, 5, 5, Sell, "")
  }

  // ---------------------------------------------------------------- the books on the way

  lemma Next(f: Flavor, reqs: seq<Request>, req: Request, b: Book)
    requires InRange(1, reqs) && req.ticker == 0 && Run(f, 1, reqs).engine == Engine([b], 1)
    ensures InRange(1, reqs + [req])
    ensures var s := Step(f, b, 1, req);
            Run(f, 1, reqs + [req]) == RunResult(Engine([s.book], s.mid), Run(f, 1, reqs).outs + s.outs)
  {
    hide Step, Run;
    RunSnoc(f, 1, reqs, req);
    assert [b][0 := Step(f, b, 1, req).book] == [Step(f, b, 1, req).book];
  }

  /** The two messages of a new order that trades with nothing. */
  function Accepts(inc: Incoming): seq<Output> {
    [Private(Notice(inc, Accepted, inc.qty)),
     Public(PlainUpdate(inc.ticker, inc.moid, Add, inc.side, inc.price, inc.qty, INVALID_ID))]
  }

  lemma Settles(f: Flavor, reqs: seq<Request>, req: Request, b: Book, b': Book)
    requires InRange(1, reqs) && req.action == NewOrder && req.ticker == 0 && req.otype.GoodTillCancel? && req.qty > 0
    requires Run(f, 1, reqs).engine == Engine([b], 1)
    requires var inc := NewIncoming(b, req);
             var opp := b.Orders(inc.side.Opposite());
             Stops(opp, inc, inc.qty) && b' == Settle(b.(nextId := b.nextId + 1), inc, opp, inc.qty)
    ensures InRange(1, reqs + [req]) && Run(f, 1, reqs + [req]).engine == Engine([b'], 1)
    ensures Run(f, 1, reqs + [req]).outs == Run(f, 1, reqs).outs + Accepts(NewIncoming(b, req))
  {
    hide Run, Settle;
    Next(f, reqs, req, b);
  }

  /** Where a book finds the bid. */
  lemma OneBid(q: Quantity)
    ensures var l := [BID_ORDER.(remaining := q)]; Find(l, 7, 1) == 0
  {
  }

  lemma AfterBid(f: Flavor)
    ensures Run(f, 1, [BID]).engine == Engine([Book([BID_ORDER], [], 2)], 1)
    ensures Run(f, 1, [BID]).outs == Accepts(NewIncoming(EMPTY, BID))
  {
    assert Run(f, 1, []) == RunResult(Engine([EMPTY], 1), []);
    assert [] + [BID] == [BID];
    assert Insert([], BID_ORDER) == [BID_ORDER];
    Settles(f, [], BID, EMPTY, Book([BID_ORDER], [], 2));
  }

  lemma AfterAsk(f: Flavor)
    ensures Run(f, 1, [ASK]).engine == Engine([Book([], [AskOrder(1)], 2)], 1)
    ensures Run(f, 1, [ASK]).outs == Accepts(NewIncoming(EMPTY, ASK))
  {
    assert Run(f, 1, []) == RunResult(Engine([EMPTY], 1), []);
    assert [] + [ASK] == [ASK];
    assert Insert([], AskOrder(1)) == [AskOrder(1)];
    Settles(f, [], ASK, EMPTY, Book([], [AskOrder(1)], 2));
  }

  lemma AfterBoth(f: Flavor)
    ensures Run(f, 1, [BID, ASK]).engine == Engine([Book([BID_ORDER], [AskOrder(2)], 3)], 1)
  {
    AfterBid(f);
    assert [BID] + [ASK] == [BID, ASK];
    assert Insert([], AskOrder(2)) == [AskOrder(2)];
    Settles(f, [BID], ASK, Book([BID_ORDER], [], 2), Book([BID_ORDER], [AskOrder(2)], 3));
  }

  lemma AfterTrim(f: Flavor)
    ensures Run(f, 1, [BID, TRIM]).engine == Engine([Book([BID_ORDER.(remaining := 6)], [], 2)], 1)
  {
    AfterBid(f);
    assert [BID] + [TRIM] == [BID, TRIM];
    Next(f, [BID], TRIM, Book([BID_ORDER], [], 2));
    OneBid(10);
    assert [BID_ORDER][0 := BID_ORDER.(remaining := 6)] == [BID_ORDER.(remaining := 6)];
  }

  // ---------------------------------------------------------------- the shadow book is not the order book

  /** The first unfaithful request of a run parts the shadow book from the order book. */
  lemma FirstUnfaithful(f: Flavor, reqs: seq<Request>, req: Request)
    requires InRange(1, reqs) && InRange(1, reqs + [req]) && NeverReused(reqs + [req])
    requires FaithfulRun(f, 1, reqs) && !Faithful(f, Run(f, 1, reqs).engine.books[0], req)
    ensures FreshRun(f, 1, reqs + [req])
    ensures !Agrees(ShadowOf(f, 1, reqs + [req], 0), Run(f, 1, reqs + [req]).engine.books[0])
  {
    hide Run, Agrees, Faithful, ShadowOf, Fresh;
    var all := reqs + [req];
    assert Init(all) == reqs && Last(all) == req;
    NeverReusedIsFresh(f, 1, all);
    ShadowAgreement.RunAgrees(f, 1, reqs);
    ShadowAgreement.RunAgrees(f, 1, all);
    assert all[|reqs|].ticker == 0;
  }

  lemma BidsAreFaithful(f: Flavor)
    ensures FaithfulRun(f, 1, [BID]) && FaithfulRun(f, 1, [BID, ASK])
  {
    hide Run;
    assert Init([BID]) == [] && Last([BID]) == BID;
    assert Init([BID, ASK]) == [BID] && Last([BID, ASK]) == ASK;
  }

  /** A partial cancel: the shadow book has lost an order that still rests. */
  lemma PartialCancelFails(f: Flavor)
    ensures FreshRun(f, 1, [BID, TRIM])
    ensures !Agrees(ShadowOf(f, 1, [BID, TRIM], 0), Run(f, 1, [BID, TRIM]).engine.books[0])
  {
    hide Run, Agrees, ShadowOf;
    BidsAreFaithful(f);
    AfterBid(f);
    OneBid(10);
    assert PartialCancel(Book([BID_ORDER], [], 2), TRIM);
    assert [BID] + [TRIM] == [BID, TRIM];
    FirstUnfaithful(f, [BID], TRIM);
  }

  /** What a replacement of the bid at the ask's price finds. */
  lemma ReplacesBid(req: Request)
    requires req.client == 7 && req.coid == 1 && req.price == 110 && req.newCoid != 0 && req.qty != 0
    ensures var b := Book([BID_ORDER], [AskOrder(2)], 3); ReplaceAccepted(b, req) && ReplaceLiquidity(b, req) == 5
  {
    OneBid(10);
    var b := Book([BID_ORDER], [AskOrder(2)], 3);
    var inc := ReplaceIncoming(b, req);
    assert WithoutReplaced(b, req).Orders(inc.side.Opposite()) == [AskOrder(2)];
    assert [AskOrder(2)][1..] == [];
    assert Liquidity([AskOrder(2)], inc) == 5 + Liquidity([], inc);
  }

  /** A good-till-cancel replacement that trades on entry: the shadow book shows its full quantity. */
  lemma CrossingReplaceFails(f: Flavor)
    ensures FreshRun(f, 1, [BID, ASK, LIFT])
    ensures !Agrees(ShadowOf(f, 1, [BID, ASK, LIFT], 0), Run(f, 1, [BID, ASK, LIFT]).engine.books[0])
  {
    hide Run, Agrees, ShadowOf, ReplaceLiquidity, ReplaceAccepted, FaithfulRun;
    BidsAreFaithful(f);
    AfterBoth(f);
    ReplacesBid(LIFT);
    assert [BID, ASK] + [LIFT] == [BID, ASK, LIFT];
    FirstUnfaithful(f, [BID, ASK], LIFT);
  }

  /** A fill-and-kill replacement that is filled: the shadow book shows an order that never rested. */
  lemma FilledReplaceFails(f: Flavor)
    ensures FreshRun(f, 1, [BID, ASK, FILL])
    ensures !Agrees(ShadowOf(f, 1, [BID, ASK, FILL], 0), Run(f, 1, [BID, ASK, FILL]).engine.books[0])
  {
    hide Run, Agrees, ShadowOf, ReplaceLiquidity, ReplaceAccepted, FaithfulRun;
    BidsAreFaithful(f);
    AfterBoth(f);
    ReplacesBid(FILL);
    assert [BID, ASK] + [FILL] == [BID, ASK, FILL];
    FirstUnfaithful(f, [BID, ASK], FILL);
  }

  /** The vector book does not announce the end of a fill-and-kill replacement; the shadow book shows it forever. */
  lemma UnannouncedReplaceFails()
    ensures FreshRun(VectorForm, 1, [BID, MISS])
    ensures !Agrees(ShadowOf(VectorForm, 1, [BID, MISS], 0), Run(VectorForm, 1, [BID, MISS]).engine.books[0])
  {
    hide Run, Agrees, ShadowOf, FaithfulRun;
    BidsAreFaithful(VectorForm);
    AfterBid(VectorForm);
    OneBid(10);
    assert [BID] + [MISS] == [BID, MISS];
    FirstUnfaithful(VectorForm, [BID], MISS);
  }

  // ---------------------------------------------------------------- the two engines send different messages

  /** Both engines can take the run. */
  lemma Takes(reqs: seq<Request>)
    requires InRange(1, reqs) && NeverReused(reqs) && forall i :: 0 <= i < |reqs| ==> Bounded(reqs[i])
    ensures FreshRun(MapForm, 1, reqs) && FreshRun(VectorForm, 1, reqs) && IndexableRun(1, reqs)
  {
    NeverReusedIsFresh(MapForm, 1, reqs);
    NeverReusedIsFresh(VectorForm, 1, reqs);
    BoundedIsIndexable(1, reqs);
  }

  lemma TakeTrades(f: Flavor)
    ensures var inc, o := NewIncoming(Book([], [AskOrder(1)], 2), TAKE), AskOrder(1).(remaining := 0);
            AddStep(f, Book([], [AskOrder(1)], 2), 1, TAKE).outs ==
            [Private(Notice(inc, Accepted, 5))] + FillOutputs(f, inc, o, 5, 0, 1)
  {
    var l, inc := [AskOrder(1)], NewIncoming(Book([], [AskOrder(1)], 2), TAKE);
    FullFill(f, l, inc, 5, 1);
    assert l[1..] == [] && Match(f, [], inc, 0, 2) == MatchResult([], 0, 2, []);
    var fill := FillOutputs(f, inc, l[0].(remaining := 0), 5, 0, 1);
    assert fill + [] == fill;
  }

  /** The last message of this run is its trade; only the map engine's carries the match id. */
  lemma TradeIdDiffers()
    ensures FreshRun(MapForm, 1, [ASK, TAKE]) && FreshRun(VectorForm, 1, [ASK, TAKE]) && IndexableRun(1, [ASK, TAKE])
    ensures var m, v := Run(MapForm, 1, [ASK, TAKE]).outs, Run(VectorForm, 1, [ASK, TAKE]).outs;
            && |m| == |v| == 6 && m[..5] == v[..5] && m[5].Public? && m[5].upd.kind == Trade
            && m[5].upd.matchId == 1 && v[5] == Public(m[5].upd.(matchId := INVALID_ID))
  {
    hide Run, AddStep;
    Takes([ASK, TAKE]);
    assert [ASK] + [TAKE] == [ASK, TAKE];
    forall f: Flavor
      ensures Run(f, 1, [ASK, TAKE]).outs ==
              Accepts(NewIncoming(EMPTY, ASK)) + AddStep(f, Book([], [AskOrder(1)], 2), 1, TAKE).outs
    {
      AfterAsk(f);
      Next(f, [ASK], TAKE, Book([], [AskOrder(1)], 2));
    }
    TakeTrades(MapForm);
    TakeTrades(VectorForm);
  }

  /** The last message of this run is the CANCELED response: 4 were canceled, 6 are left. */
  lemma CancelLeavesDiffers()
    ensures FreshRun(MapForm, 1, [BID, TRIM]) && FreshRun(VectorForm, 1, [BID, TRIM]) && IndexableRun(1, [BID, TRIM])
    ensures var m, v := Run(MapForm, 1, [BID, TRIM]).outs, Run(VectorForm, 1, [BID, TRIM]).outs;
            && |m| == |v| == 4 && m[..3] == v[..3] && m[3].Private? && m[3].resp.status == Canceled
            && m[3].resp.leaves == 4 && v[3] == Private(m[3].resp.(leaves := 6))
  {
    hide Run;
    Takes([BID, TRIM]);
    assert [BID] + [TRIM] == [BID, TRIM];
    OneBid(10);
    forall f: Flavor
      ensures Run(f, 1, [BID, TRIM]).outs ==
              Accepts(NewIncoming(EMPTY, BID)) + CancelStep(f, Book([BID_ORDER], [], 2), 1, TRIM).outs
    {
      AfterBid(f);
      Next(f, [BID], TRIM, Book([BID_ORDER], [], 2));
    }
  }

  lemma MissEnds(f: Flavor)
    ensures var b := Book([BID_ORDER], [], 2);
            && Present(b, 7, 1) && ReplaceIncoming(b, MISS) == Incoming(0, 7, 3, 2, FillAndKill, 100, 8, Buy, "")
            && ReplaceStep(f, b, 1, MISS).outs ==
               ReplaceHead(b, MISS) + ReplaceTail(f, Incoming(0, 7, 3, 2, FillAndKill, 100, 8, Buy, ""), 8)
  {
    OneBid(10);
    var b := Book([BID_ORDER], [], 2);
    assert ReplaceMatch(f, b, 1, MISS).left == 8 && ReplaceMatch(f, b, 1, MISS).outs == [];
    assert ReplaceHead(b, MISS) + [] == ReplaceHead(b, MISS);
  }

  /** Only the map engine's run ends with the CANCELED response and the CANCEL update of the replacement. */
  lemma ReplaceEndDiffers()
    ensures FreshRun(MapForm, 1, [BID, MISS]) && FreshRun(VectorForm, 1, [BID, MISS]) && IndexableRun(1, [BID, MISS])
    ensures var m, v := Run(MapForm, 1, [BID, MISS]).outs, Run(VectorForm, 1, [BID, MISS]).outs;
            && |m| == 6 && v == m[..4] && m[4].Private? && m[4].resp.status == Canceled && m[4].resp.leaves == 8
            && m[5] == Public(PlainUpdate(0, 2, Cancel, Buy, 100, 8, INVALID_ID))
  {
    hide Run, ReplaceStep, ReplaceIncoming;
    Takes([BID, MISS]);
    assert [BID] + [MISS] == [BID, MISS];
    MissEnds(MapForm);
    MissEnds(VectorForm);
    forall f: Flavor
      ensures Run(f, 1, [BID, MISS]).outs ==
              Accepts(NewIncoming(EMPTY, BID)) + ReplaceStep(f, Book([BID_ORDER], [], 2), 1, MISS).outs
    {
      AfterBid(f);
      Next(f, [BID], MISS, Book([BID_ORDER], [], 2));
    }
  }

  // ---------------------------------------------------------------- a client cannot follow

  /** A partially canceled order is replaced: the frame names an order that no client holds any more. */
  lemma LostReplaceFails(f: Flavor, clock: nat -> nat)
    ensures FreshRun(f, 1, [BID, TRIM, MOVE]) && Carried(1, FeedOf(f, 1, [BID, TRIM, MOVE]))
    ensures !Recovers(1, FeedOf(f, 1, [BID, TRIM, MOVE]), clock)
  {
    hide Run, Recovers, Carried;
    var reqs := [BID, TRIM, MOVE];
    assert Init(reqs) == [BID, TRIM] && Last(reqs) == MOVE;
    assert Init([BID, TRIM]) == [BID] && Last([BID, TRIM]) == TRIM;
    NeverReusedIsFresh(f, 1, reqs);
    AfterBid(f);
    AfterTrim(f);
    OneBid(10);
    OneBid(6);
    assert 1 in TrimmedBy(Book([BID_ORDER], [], 2), TRIM);
    assert 1 in Trimmed(f, 1, [BID, TRIM], 0);
    RunRecovers(f, 1, reqs, clock);
  }
}
