/** Which runs of the engine a market-data client can recover from exactly, and what it then holds. */
module RecoveryRuns {
  import opened Types
  import opened PriceTime
  import opened BookInvariants
  import opened EngineRun
  import opened ShadowBook
  import opened ShadowAgreement
  import opened ShadowCover
  import opened ShadowGaps
  import opened Conservation
  import opened Itch
  import opened Publisher
  import opened Recovery
  import opened Streamer

  // ---------------------------------------------------------------- everything fits the wire

  predicate Narrow(req: Request) {
    req.price < WORD && req.qty < WORD
  }

  ghost predicate NarrowRun(reqs: seq<Request>) {
    forall i :: 0 <= i < |reqs| ==> Narrow(reqs[i])
  }

  ghost predicate ListFits(l: seq<Order>) {
    forall i :: 0 <= i < |l| ==> l[i].price < WORD && l[i].remaining < WORD
  }

  ghost predicate BookFits(b: Book) {
    ListFits(b.bids) && ListFits(b.asks)
  }

  ghost predicate OutsFit(outs: seq<Output>) {
    forall i :: 0 <= i < |outs| && outs[i].Public? ==> Fits(outs[i].upd)
  }

  lemma {:induction false} MatchFits(f: Flavor, opp: seq<Order>, inc: Incoming, left: Quantity, mid: OrderId)
    requires ListFits(opp)
    ensures var m := Match(f, opp, inc, left, mid); ListFits(m.rest) && OutsFit(m.outs) && m.left <= left
    decreases |opp|, left
  {
    if !Stops(opp, inc, left) {
      var s := FillFront(f, opp, inc, left, mid);
      MatchFits(f, s.rest, inc, s.left, s.mid);
    }
  }

  lemma InsertFits(l: seq<Order>, o: Order)
    requires ListFits(l) && o.price < WORD && o.remaining < WORD
    ensures ListFits(Insert(l, o))
  {
    forall i | 0 <= i < |Insert(l, o)|
      ensures Insert(l, o)[i].price < WORD && Insert(l, o)[i].remaining < WORD
    {
      InsertMembers(l, o, i);
    }
  }

  lemma SettleFits(f: Flavor, b: Book, inc: Incoming, mid: OrderId)
    requires BookFits(b) && inc.price < WORD && inc.qty < WORD
    ensures var m := Match(f, b.Orders(inc.side.Opposite()), inc, inc.qty, mid);
            BookFits(Settle(b, inc, m.rest, m.left)) && OutsFit(m.outs) && m.left <= inc.qty
  {
    hide Match, ListFits, PriceTime.Insert, OutsFit;
    var m := Match(f, b.Orders(inc.side.Opposite()), inc, inc.qty, mid);
    MatchFits(f, b.Orders(inc.side.Opposite()), inc, inc.qty, mid);
    InsertFits(b.Orders(inc.side), Resting(inc, m.left));
  }

  lemma WithoutFits(b: Book, req: Request)
    requires BookFits(b) && Present(b, req.client, req.coid)
    ensures BookFits(WithoutReplaced(b, req))
  {
    var l := b.Orders(SideOf(b, req.client, req.coid));
    var k := Find(l, req.client, req.coid);
    assert forall i :: 0 <= i < |Remove(l, k)| ==> Remove(l, k)[i] == l[if i < k then i else i + 1];
  }

  lemma CancelFits(f: Flavor, b: Book, mid: OrderId, req: Request)
    requires BookFits(b)
    ensures var r := CancelStep(f, b, mid, req); BookFits(r.book) && OutsFit(r.outs)
  {
    if Present(b, req.client, req.coid) {
      WithoutFits(b, req);
    }
  }

  lemma StepFits(f: Flavor, b: Book, mid: OrderId, req: Request)
    requires BookFits(b) && Narrow(req)
    ensures var r := Step(f, b, mid, req); BookFits(r.book) && OutsFit(r.outs)
  {
    hide Match, Settle, WithoutReplaced, CancelStep, ListFits;
    match req.action
    case NewOrder =>
      SettleFits(f, b.(nextId := b.nextId + 1), NewIncoming(b, req), mid);
    case CancelOrder =>
      CancelFits(f, b, mid, req);
    case ModifyOrder =>
      if ReplaceAccepted(b, req) {
        WithoutFits(b, req);
        SettleFits(f, WithoutReplaced(b, req), ReplaceIncoming(b, req), mid);
      }
  }

  lemma {:induction false} RunFits(f: Flavor, n: nat, reqs: seq<Request>)
    requires InRange(n, reqs) && NarrowRun(reqs)
    ensures var r := Run(f, n, reqs); OutsFit(r.outs) && forall t :: 0 <= t < n ==> BookFits(r.engine.books[t])
  {
    hide Step, ListFits;
    if reqs == [] {
      EmptyFits();
    } else {
      RunFits(f, n, Init(reqs));
      var e, req := Run(f, n, Init(reqs)).engine, Last(reqs);
      assert Narrow(req);
      StepFits(f, e.books[req.ticker], e.mid, req);
    }
  }

  lemma EmptyFits()
    ensures BookFits(EMPTY)
  {
  }

  /** 32-bit requests make a feed whose every frame loses nothing. */
  lemma RunCarried(f: Flavor, n: nat, reqs: seq<Request>)
    requires InRange(n, reqs) && NarrowRun(reqs)
    ensures Carried(n, FeedOf(f, n, reqs))
  {
    hide Run;
    FeedIsCarried(f, n, reqs);
    RunFits(f, n, reqs);
    forall k | 0 <= k < |FeedOf(f, n, reqs)|
      ensures Fits(FeedOf(f, n, reqs)[k])
    {
      var i := UpdateSource(Run(f, n, reqs).outs, k);
    }
  }

  // ---------------------------------------------------------------- the updates of one request

  /** Only the first update of a request can be a replace. */
  ghost predicate FirstReplaces(us: seq<Update>) {
    forall i :: 0 < i < |us| ==> us[i].kind != Modify
  }

  ghost predicate NoReplace(us: seq<Update>) {
    forall i :: 0 <= i < |us| ==> us[i].kind != Modify
  }

  lemma {:induction false} MatchReplacesNothing(f: Flavor, opp: seq<Order>, inc: Incoming, left: Quantity, mid: OrderId)
    ensures NoReplace(Updates(Match(f, opp, inc, left, mid).outs))
    decreases |opp|, left
  {
    if !Stops(opp, inc, left) {
      var r := FillFront(f, opp, inc, left, mid);
      FillUpdates(f, opp, inc, left, mid);
      UpdatesConcat(r.outs, Match(f, r.rest, inc, r.left, r.mid).outs);
      MatchReplacesNothing(f, r.rest, inc, r.left, r.mid);
      assert Updates(Match(f, opp, inc, left, mid).outs) ==
             [TradeOf(f, opp, inc, left, mid)] + Updates(Match(f, r.rest, inc, r.left, r.mid).outs);
    }
  }

  /** The replaced order is not one that the shadow book has lost. */
  predicate Traceable(b: Book, req: Request, lost: set<OrderId>) {
    req.action == ModifyOrder && ReplaceAccepted(b, req) ==> Replaced(b, req).moid !in lost
  }

  lemma CancelUpdates(f: Flavor, b: Book, mid: OrderId, req: Request)
    ensures var us := Updates(CancelStep(f, b, mid, req).outs); |us| <= 1 && (us != [] ==> us[0].kind == Cancel)
  {
    var outs := CancelStep(f, b, mid, req).outs;
    if outs[0].Public? {
      assert Updates(outs) == [outs[0].upd] + Updates(outs[1..]);
      assert Updates(outs[1..]) == [];
    } else {
      assert Updates(outs) == [];
    }
  }

  lemma StepReplaces(f: Flavor, b: Book, mid: OrderId, req: Request)
    ensures var us := Updates(Step(f, b, mid, req).outs);
            && FirstReplaces(us)
            && (if req.action == ModifyOrder && ReplaceAccepted(b, req)
                then us != [] && us[0].kind == Modify && us[0].moid == Replaced(b, req).moid
                     && us[0].side == Replaced(b, req).side && us[0].newId == b.nextId
                else us != [] ==> us[0].kind != Modify)
  {
    hide Match, Find, WithoutReplaced, Settle, FirstReplaces, CancelStep;
    var outs := Step(f, b, mid, req).outs;
    match req.action
    case NewOrder =>
      var inc := NewIncoming(b, req);
      AddUpdates(f, b, mid, req);
      MatchReplacesNothing(f, b.Orders(inc.side.Opposite()), inc, inc.qty, mid);
      var tail := AddTail(inc, Match(f, b.Orders(inc.side.Opposite()), inc, inc.qty, mid).left);
      assert tail != [] ==> tail[1..] == [];
      var m := Match(f, b.Orders(inc.side.Opposite()), inc, inc.qty, mid);
      OnlyFirst([], Updates(m.outs), Updates(tail));
      assert [] + Updates(m.outs) + Updates(tail) == Updates(m.outs) + Updates(tail);
    case CancelOrder =>
      CancelUpdates(f, b, mid, req);
      OnlyFirst(Updates(outs), [], []);
      assert Updates(outs) + [] + [] == Updates(outs);
    case ModifyOrder =>
      if !ReplaceAccepted(b, req) {
        assert Updates(outs) == [];
        OnlyFirst([], [], []);
      } else {
        ReplaceReplaces(f, b, mid, req);
      }
  }

  lemma ReplaceReplaces(f: Flavor, b: Book, mid: OrderId, req: Request)
    requires ReplaceAccepted(b, req)
    ensures var us := Updates(ReplaceStep(f, b, mid, req).outs);
            && FirstReplaces(us) && us != [] && us[0].kind == Modify && us[0].moid == Replaced(b, req).moid
            && us[0].side == Replaced(b, req).side && us[0].newId == b.nextId
  {
    hide Match, Find, WithoutReplaced, Settle, FirstReplaces;
    var inc := ReplaceIncoming(b, req);
    ReplaceUpdates(f, b, mid, req);
    MatchReplacesNothing(f, WithoutReplaced(b, req).Orders(inc.side.Opposite()), inc, inc.qty, mid);
    var m := ReplaceMatch(f, b, mid, req);
    var u := PlainUpdate(inc.ticker, Replaced(b, req).moid, Modify, inc.side, inc.price, inc.qty, inc.moid);
    OnlyFirst([u], Updates(m.outs), CancelOf(f, inc, m.left));
  }

  lemma OnlyFirst(head: seq<Update>, a: seq<Update>, b: seq<Update>)
    requires |head| <= 1 && NoReplace(a) && NoReplace(b)
    ensures FirstReplaces(head + a + b)
    ensures head == [] && a + b != [] ==> (a + b)[0].kind != Modify
  {
  }

  /** Update by update within one request, on its own ticker's shadow book. */
  ghost predicate FollowableWithin(s: Shadow, us: seq<Update>) {
    forall i :: 0 <= i < |us| ==> Followable(ApplyAll(s, us[..i]), us[i])
  }

  ghost predicate NewIdsWithin(s: Shadow, us: seq<Update>) {
    forall i :: 0 <= i < |us| && us[i].kind == Modify ==> us[i].newId !in ApplyAll(s, us[..i])
  }

  /** A request's updates can be followed exactly when it does not replace a lost order. */
  lemma StepFollowable(f: Flavor, s: Shadow, b: Book, mid: OrderId, req: Request, lost: set<OrderId>,
                       crossed: Excess)
    requires BookInv(b) && CoversAll(s, b, lost, crossed) && Gone(s, b, lost)
    ensures var us := Updates(Step(f, b, mid, req).outs);
            NewIdsWithin(s, us) && (FollowableWithin(s, us) <==> Traceable(b, req, lost))
  {
    hide Step, BookInv;
    var us := Updates(Step(f, b, mid, req).outs);
    StepReplaces(f, b, mid, req);
    if us != [] {
      assert us[..0] == [] && ApplyAll(s, us[..0]) == s;
      assert forall i :: 0 < i < |us| ==> Followable(ApplyAll(s, us[..i]), us[i]);
      assert FollowableWithin(s, us) <==> Followable(s, us[0]);
      if us[0].kind == Modify {
        var side := SideOf(b, req.client, req.coid);
        HasAt(b, side, Find(b.Orders(side), req.client, req.coid));
      }
    }
  }

  // ---------------------------------------------------------------- whole runs

  /** No accepted replace names an order that was partially canceled before. */
  ghost predicate TraceableRun(f: Flavor, n: nat, reqs: seq<Request>)
    requires InRange(n, reqs)
  {
    reqs != [] ==>
      var req := Last(reqs);
      && TraceableRun(f, n, Init(reqs))
      && Traceable(Run(f, n, Init(reqs)).engine.books[req.ticker], req, Trimmed(f, n, Init(reqs), req.ticker))
  }

  ghost predicate AllTicker(us: seq<Update>, t: TickerId) {
    forall i :: 0 <= i < |us| ==> us[i].ticker == t
  }

  lemma {:induction false} SeenOwn(t: TickerId, us: seq<Update>)
    requires AllTicker(us, t)
    ensures Seen(t, us) == us
  {
    if us != [] {
      SeenOwn(t, us[1..]);
      assert us == [us[0]] + us[1..];
    }
  }

  /** The shadow book that update |us| + i of us + ws finds, when ws is all about one ticker. */
  lemma ShadowWithin(n: nat, us: seq<Update>, ws: seq<Update>, t: TickerId, i: nat)
    requires AllTicker(ws, t) && t < n && i < |ws|
    ensures ShadowAt(n, us + ws, |us| + i) == ApplyAll(ShadowsAfter(n, us)[t], ws[..i])
  {
    assert (us + ws)[..|us| + i] == us + ws[..i];
    SeenConcat(t, us, ws[..i]);
    SeenOwn(t, ws[..i]);
    ApplyConcat(map[], Seen(t, us), ws[..i]);
  }

  lemma ShadowBefore(n: nat, us: seq<Update>, ws: seq<Update>, k: nat)
    requires k < |us| && us[k].ticker < n
    ensures ShadowAt(n, us + ws, k) == ShadowAt(n, us, k)
  {
    assert (us + ws)[..k] == us[..k];
  }

  /** Whether update |us| + i of us + ws can be followed is a matter of ws and its ticker's shadow book. */
  lemma FollowableFrom(n: nat, us: seq<Update>, ws: seq<Update>, t: TickerId, i: nat)
    requires AllTicker(ws, t) && t < n && i < |ws|
    ensures (us + ws)[|us| + i] == ws[i]
    ensures FollowableAt(n, us + ws, |us| + i) <==> Followable(ApplyAll(ShadowsAfter(n, us)[t], ws[..i]), ws[i])
    ensures NewIdAt(n, us + ws, |us| + i) <==>
            (ws[i].kind == Modify ==> ws[i].newId !in ApplyAll(ShadowsAfter(n, us)[t], ws[..i]))
  {
    hide ShadowAt, ApplyAll, ShadowsAfter;
    ShadowWithin(n, us, ws, t, i);
  }

  lemma FollowableConcat(n: nat, us: seq<Update>, ws: seq<Update>, t: TickerId)
    requires Carried(n, us + ws) && Carried(n, us) && AllTicker(ws, t) && t < n
    ensures AllFollowable(n, us + ws) <==> AllFollowable(n, us) && FollowableWithin(ShadowsAfter(n, us)[t], ws)
    ensures NewIds(n, us) && NewIdsWithin(ShadowsAfter(n, us)[t], ws) ==> NewIds(n, us + ws)
  {
    hide ShadowAt, ShadowsAfter, ApplyAll, Followable;
    var all, s := us + ws, ShadowsAfter(n, us)[t];
    forall k | 0 <= k < |us|
      ensures FollowableAt(n, all, k) <==> FollowableAt(n, us, k)
      ensures NewIdAt(n, all, k) <==> NewIdAt(n, us, k)
    {
      ShadowBefore(n, us, ws, k);
    }
    forall k | |us| <= k < |all|
      ensures FollowableWithin(s, ws) ==> FollowableAt(n, all, k)
      ensures NewIdsWithin(s, ws) ==> NewIdAt(n, all, k)
    {
      FollowableFrom(n, us, ws, t, k - |us|);
      assert all[k] == ws[k - |us|];
    }
    if AllFollowable(n, all) {
      forall i | 0 <= i < |ws|
        ensures Followable(ApplyAll(s, ws[..i]), ws[i])
      {
        FollowableFrom(n, us, ws, t, i);
        assert FollowableAt(n, all, |us| + i);
      }
    }
  }

  lemma StepUpdatesOwn(f: Flavor, b: Book, mid: OrderId, req: Request)
    ensures AllTicker(Updates(Step(f, b, mid, req).outs), req.ticker)
  {
    hide Step;
    var outs := Step(f, b, mid, req).outs;
    StepTicker(f, b, mid, req);
    forall k | 0 <= k < |Updates(outs)|
      ensures Updates(outs)[k].ticker == req.ticker
    {
      var i := UpdateSource(outs, k);
    }
  }

  lemma {:induction false} RunFollowable(f: Flavor, n: nat, reqs: seq<Request>)
    requires InRange(n, reqs) && FreshRun(f, n, reqs) && NarrowRun(reqs)
    ensures Carried(n, FeedOf(f, n, reqs)) && NewIds(n, FeedOf(f, n, reqs))
    ensures AllFollowable(n, FeedOf(f, n, reqs)) <==> TraceableRun(f, n, reqs)
  {
    hide Step, BookInv, CoversAll, Gone, AllFollowable, NewIds, Carried, Traceable;
    RunCarried(f, n, reqs);
    if reqs == [] {
      NothingToFollow(n);
    } else {
      RunFollowable(f, n, Init(reqs));
      var r, req := Run(f, n, Init(reqs)), Last(reqs);
      var t := req.ticker;
      var s := Step(f, r.engine.books[t], r.engine.mid, req);
      UpdatesConcat(r.outs, s.outs);
      StepUpdatesOwn(f, r.engine.books[t], r.engine.mid, req);
      FollowableConcat(n, FeedOf(f, n, Init(reqs)), Updates(s.outs), t);
      RunInv(f, n, Init(reqs), t);
      RunCovers(f, n, Init(reqs), t);
      RunGone(f, n, Init(reqs), t);
      StepFollowable(f, ShadowOf(f, n, Init(reqs), t), r.engine.books[t], r.engine.mid, req,
                     Trimmed(f, n, Init(reqs), t), Crossed(f, n, Init(reqs), t));
    }
  }

  lemma NothingToFollow(n: nat)
    ensures Carried(n, []) && NewIds(n, []) && AllFollowable(n, [])
  {
  }

  /**
   Over every run of either engine: whenever a client takes its snapshot and however long it follows the
   feed, it holds the streamer's shadow books, if and only if no accepted replace names an order that was
   partially canceled before.
   */
  lemma RunRecovers(f: Flavor, n: nat, reqs: seq<Request>, clock: nat -> nat)
    requires n <= HALF && InRange(n, reqs) && FreshRun(f, n, reqs) && NarrowRun(reqs)
    ensures Carried(n, FeedOf(f, n, reqs))
    ensures Recovers(n, FeedOf(f, n, reqs), clock) <==> TraceableRun(f, n, reqs)
  {
    hide Recovers, AllFollowable, NewIds, Carried, TraceableRun, FeedOf;
    RunFollowable(f, n, reqs);
    RecoversExactly(n, FeedOf(f, n, reqs), clock);
  }

  // ---------------------------------------------------------------- faithful runs

  /** The client's copy lists exactly the resting orders, with side, price and remaining quantity. */
  ghost predicate ViewAgrees(v: View, b: Book) {
    && (forall o: Order :: Has(b, o) ==> o.moid in v && v[o.moid] == Entry(o.side, o.price, o.remaining))
    && (forall id :: id in v ==> exists o: Order :: Has(b, o) && o.moid == id)
  }

  /** A client that took its snapshot after update j and followed all the rest holds exactly b for ticker t. */
  ghost predicate Recovered(n: nat, us: seq<Update>, clock: nat -> nat, j: nat, t: TickerId, b: Book)
    requires Carried(n, us) && j <= |us|
  {
    var vs := FollowFeed(WireViews(ShadowsAfter(n, us[..j])), us, clock, j, |us|);
    t in vs && ViewAgrees(vs[t], b)
  }

  lemma AgreesInView(s: Shadow, b: Book)
    requires Agrees(s, b)
    ensures ViewAgrees(ViewOf(s), b)
  {
  }

  lemma {:induction false} FaithfulIsTraceable(f: Flavor, n: nat, reqs: seq<Request>)
    requires InRange(n, reqs) && FaithfulRun(f, n, reqs)
    ensures TraceableRun(f, n, reqs) && forall t :: 0 <= t < n ==> Trimmed(f, n, reqs, t) == {}
  {
    hide Run;
    if reqs != [] {
      FaithfulIsTraceable(f, n, Init(reqs));
    }
  }

  /** After a faithful run, every client that recovered at any moment holds the order books themselves. */
  lemma FaithfulRecovers(f: Flavor, n: nat, reqs: seq<Request>, clock: nat -> nat, j: nat, t: TickerId)
    requires n <= HALF && InRange(n, reqs) && FreshRun(f, n, reqs) && NarrowRun(reqs)
    requires FaithfulRun(f, n, reqs) && j <= |FeedOf(f, n, reqs)| && t < n
    ensures Carried(n, FeedOf(f, n, reqs))
    ensures Recovered(n, FeedOf(f, n, reqs), clock, j, t, Run(f, n, reqs).engine.books[t])
  {
    hide Agrees, Carried, TraceableRun, ViewAgrees, FollowFeed;
    var us := FeedOf(f, n, reqs);
    FaithfulIsTraceable(f, n, reqs);
    RunRecovers(f, n, reqs, clock);
    ShadowAgreement.RunAgrees(f, n, reqs);
    AgreesInView(ShadowOf(f, n, reqs, t), Run(f, n, reqs).engine.books[t]);
    assert us[..|us|] == us;
  }
}
