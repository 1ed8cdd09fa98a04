/** The default order book: one sorted map of price levels per side. */
module MapBook {
  import opened Types
  import opened PriceTime
  import opened EnginePort
  import opened MapLevels
  import OS = OrderStore

  /** The fields of a book, with the ghost priority lists. */
  datatype Rep = Rep(s: OS.Store, bids: Levels, asks: Levels, nextId: OrderId) {
    function LevelsOf(side: Side): Levels {
      if side.Buy? then bids else asks
    }
  }

  ghost predicate RepValid(c: Rep) {
    && OS.Valid(c.s)
    && LevelMap(c.s.pool, c.s.bidL, c.bids)
    && LevelMap(c.s.pool, c.s.askL, c.asks)
  }

  /** The reference book that the fields represent. */
  ghost function Abs(c: Rep): PriceTime.Book
    requires RepValid(c)
  {
    OS.Abs(c.s, c.nextId)
  }

  // ---------------------------------------------------------------- insertion

  predicate TailReady(c: Rep, side: Side, p: Price) {
    var lv := c.LevelsOf(side);
    p in lv ==> lv[p].head != OS.NULL && lv[p].tail != OS.NULL && lv[p].tail in c.s.pool
  }

  ghost predicate InsertReady(c: Rep, k: nat, o: Order)
    requires RepValid(c)
  {
    && TailReady(c, o.side, o.price)
    && k == InsertPos(o.side, OS.Values(c.s.pool, c.s.L(o.side)), o.price) <= |c.s.L(o.side)|
    && OS.Slot(o.side, c.s.pool, c.s.L(o.side), k, o.price, TailOf(c.LevelsOf(o.side), o.price))
    && !OS.Knows(c.s.index, o.client, o.coid)
  }

  lemma PrepareInsert(c: Rep, o: Order) returns (k: nat)
    requires RepValid(c) && !Present(Abs(c), o.client, o.coid)
    ensures InsertReady(c, k, o)
  {
    k := TailIsSlot(o.side, c.s.pool, c.s.L(o.side), c.LevelsOf(o.side), o.price);
    if OS.Knows(c.s.index, o.client, o.coid) {
      var i := OS.Locate(c.s, o.client, o.coid, c.nextId);
    }
  }

  ghost function Inserted(c: Rep, k: nat, r: OS.Ref, o: Order): Rep
    requires k <= |c.s.L(o.side)| && r !in c.s.pool && TailReady(c, o.side, o.price)
  {
    var lv := c.LevelsOf(o.side);
    var c' := c.(s := OS.Inserted(c.s, k, r, o, TailOf(lv, o.price)));
    if o.side.Buy? then c'.(bids := GrowLevel(lv, o.price, r)) else c'.(asks := GrowLevel(lv, o.price, r))
  }

  lemma InsertValid(c: Rep, k: nat, r: OS.Ref, o: Order)
    requires RepValid(c) && InsertReady(c, k, o) && r != OS.NULL && r !in c.s.pool
    ensures RepValid(Inserted(c, k, r, o))
    ensures Abs(Inserted(c, k, r, o)) == Abs(c).With(o.side, PriceTime.Insert(Abs(c).Orders(o.side), o))
  {
    hide OS.Indexed, OS.Append, OS.PutKey, OS.Slot, OS.Linked, OS.PriceSorted, OS.Distinct, LevelMap;
    var lv, tail, other := c.LevelsOf(o.side), TailOf(c.LevelsOf(o.side), o.price), o.side.Opposite();
    OS.InsertValid(c.s, k, r, o, tail, c.nextId);
    GrowMap(o.side, c.s.pool, c.s.L(o.side), lv, k, r, o);
    MapUntouched(c.s.pool, OS.Append(c.s.pool, r, o, tail), c.s.L(other), c.LevelsOf(other));
  }

  // ---------------------------------------------------------------- removal

  ghost predicate Removable(c: Rep, side: Side, k: nat) {
    && k < |c.s.L(side)| && c.s.L(side)[k] in c.s.pool && OS.LinksLive(c.s.pool, c.s.L(side)[k])
    && var o := c.s.pool[c.s.L(side)[k]].o; o.side == side && o.client in c.s.index && o.price in c.LevelsOf(side)
  }

  ghost function Removed(c: Rep, side: Side, k: nat): Rep
    requires Removable(c, side, k)
  {
    var lv := ShrinkLevel(c.LevelsOf(side), c.s.pool, c.s.L(side)[k]);
    var c' := c.(s := OS.Removed(c.s, side, k));
    if side.Buy? then c'.(bids := lv) else c'.(asks := lv)
  }

  lemma RemoveValid(c: Rep, side: Side, k: nat)
    requires RepValid(c) && k < |c.s.L(side)|
    ensures Removable(c, side, k)
    ensures RepValid(Removed(c, side, k))
    ensures Abs(Removed(c, side, k)) == Abs(c).With(side, Remove(Abs(c).Orders(side), k))
  {
    var l, other := c.s.L(side), side.Opposite();
    OS.RemoveValid(c.s, side, k, c.nextId);
    ShrinkMap(side, c.s.pool, l, c.LevelsOf(side), k);
    MapUntouched(c.s.pool, OS.Unlink(c.s.pool, l[k]), c.s.L(other), c.LevelsOf(other));
  }

  // ---------------------------------------------------------------- shrinking

  ghost function Resized(c: Rep, side: Side, k: nat, q: Quantity): Rep
    requires k < |c.s.L(side)| && c.s.L(side)[k] in c.s.pool
  {
    c.(s := OS.Resized(c.s, side, k, q))
  }

  lemma ResizeValid(c: Rep, side: Side, k: nat, q: Quantity)
    requires RepValid(c) && k < |c.s.L(side)|
    ensures c.s.L(side)[k] in c.s.pool
    ensures RepValid(Resized(c, side, k, q))
    ensures var l := Abs(c).Orders(side);
            && l[k] == c.s.pool[c.s.L(side)[k]].o
            && Abs(Resized(c, side, k, q)) == Abs(c).With(side, l[k := l[k].(remaining := q)])
  {
    hide LevelMap, OS.Indexed;
    OS.ResizeValid(c.s, side, k, q, c.nextId);
    var pool' := OS.SetRemaining(c.s.pool, c.s.L(side)[k], q);
    MapFrame(c.s.pool, pool', c.s.bidL, c.bids);
    MapFrame(c.s.pool, pool', c.s.askL, c.asks);
  }

  // ---------------------------------------------------------------- the front of a side

  /** begin() of a side's map leads to its first order in priority order. */
  lemma Front(c: Rep, side: Side)
    requires RepValid(c)
    ensures Abs(c).Orders(side) == [] <==> c.LevelsOf(side) == map[]
    ensures |Abs(c).Orders(side)| == |c.s.L(side)|
    ensures Abs(c).Orders(side) != [] ==>
      var o, p := Abs(c).Orders(side)[0], Begin(side, c.LevelsOf(side));
      && p == o.price
      && c.LevelsOf(side)[p].head == c.s.L(side)[0]
      && c.s.L(side)[0] in c.s.pool
      && c.s.pool[c.s.L(side)[0]].o == o
      && c.s.L(side)[0] != OS.NULL
  {
    BeginIsFront(side, c.s.pool, c.s.L(side), c.LevelsOf(side));
  }

  lemma FrontIsBest(c: Rep, side: Side)
    requires RepValid(c) && Abs(c).Orders(side) != []
    ensures NoneBetter(side, Abs(c).Orders(side), Abs(c).Orders(side)[0].price)
  {
    var l, v := c.s.L(side), Abs(c).Orders(side);
    forall i | 0 <= i < |v|
      ensures !Better(side, v[i].price, v[0].price)
    {
      assert i > 0 ==> !Better(side, OS.PriceAt(c.s.pool, l, i), OS.PriceAt(c.s.pool, l, 0));
    }
  }

  /** A level that is still in the map while its side's first order has its price is that order's. */
  lemma FrontOrGone(c: Rep, side: Side, p: Price)
    requires RepValid(c)
    requires NoneBetter(side, Abs(c).Orders(side), p)
    ensures p in c.LevelsOf(side) <==> Abs(c).Orders(side) != [] && Abs(c).Orders(side)[0].price == p
  {
    var l, lv, v := c.s.L(side), c.LevelsOf(side), Abs(c).Orders(side);
    Front(c, side);
    assert forall i :: 0 <= i < |l| ==> v[i].price == OS.PriceAt(c.s.pool, l, i);
    if p in lv {
      assert OS.Occupied(c.s.pool, l, p);
    }
  }

  /** The index and a search of the reference book find the same order. */
  lemma Lookup(c: Rep, client: ClientId, coid: OrderId) returns (k: nat)
    requires RepValid(c)
    ensures OS.Knows(c.s.index, client, coid) <==> Present(Abs(c), client, coid)
    ensures OS.Knows(c.s.index, client, coid) ==>
      var r, side := c.s.index[client][coid], SideOf(Abs(c), client, coid);
      && k == Find(Abs(c).Orders(side), client, coid) < |c.s.L(side)| == |Abs(c).Orders(side)|
      && c.s.L(side)[k] == r && r in c.s.pool && c.s.pool[r].o == Abs(c).Orders(side)[k]
      && c.s.pool[r].o.side == side && HasKey(c.s.pool[r].o, client, coid)
  {
    if OS.Knows(c.s.index, client, coid) {
      k := OS.Locate(c.s, client, coid, c.nextId);
    } else {
      k := 0;
      OS.LocateNothing(c.s, client, coid, c.nextId);
    }
  }

  // ---------------------------------------------------------------- the class

  class Book {
    const port: Port
    var pool: OS.Pool
    var index: OS.Index
    var bids: Levels
    var asks: Levels
    var nextMarketOrderId: OrderId
    ghost var bidL: seq<OS.Ref>
    ghost var askL: seq<OS.Ref>

    ghost function State(): Rep
      reads this
    {
      Rep(OS.Store(pool, index, bidL, askL), bids, asks, nextMarketOrderId)
    }

    function LevelsOf(side: Side): Levels
      reads this
      ensures LevelsOf(side) == State().LevelsOf(side)
    {
      if side.Buy? then bids else asks
    }

    ghost predicate Valid()
      reads this
    {
      RepValid(State())
    }

    ghost function Contents(): PriceTime.Book
      reads this
      requires Valid()
    {
      Abs(State())
    }

    constructor (port: Port)
      ensures Valid() && Contents() == EMPTY && this.port == port
    {
      this.port := port;
      pool, index, bids, asks, nextMarketOrderId := map[], map[], map[], map[], 1;
      bidL, askL := [], [];
    }

    method SetLevel(side: Side, p: Price, level: Level)
      modifies this`bids, this`asks
      ensures side.Buy? ==> bids == old(bids)[p := level] && asks == old(asks)
      ensures side.Sell? ==> asks == old(asks)[p := level] && bids == old(bids)
    {
      if side.Buy? {
        bids := bids[p := level];
      } else {
        asks := asks[p := level];
      }
    }

    method Insert(o: Order)
      requires Valid() && !Present(Contents(), o.client, o.coid)
      modifies this`pool, this`index, this`bids, this`asks, this`bidL, this`askL
      ensures Valid()
      ensures Contents() == old(Contents()).With(o.side, PriceTime.Insert(old(Contents()).Orders(o.side), o))
    {
      hide OS.Valid, LevelMap, OS.Slot;
      ghost var c := State();
      ghost var k := PrepareInsert(c, o);
      var r := Enqueue(o);
      if o.side.Buy? {
        bidL := OS.InsertAt(bidL, k, r);
      } else {
        askL := OS.InsertAt(askL, k, r);
      }
      InsertValid(c, k, r, o);
      assert State() == Inserted(c, k, r, o);
    }

    /** Allocates, queues at the level's tail and indexes: the pointer work of insert. */
    method Enqueue(o: Order) returns (r: OS.Ref)
      requires TailReady(State(), o.side, o.price)
      modifies this`pool, this`index, this`bids, this`asks
      ensures r != OS.NULL && r !in old(pool)
      ensures pool == OS.Append(old(pool), r, o, TailOf(if o.side.Buy? then old(bids) else old(asks), o.price))
      ensures index == OS.PutKey(old(index), o.client, o.coid, r)
      ensures bids == if o.side.Buy? then GrowLevel(old(bids), o.price, r) else old(bids)
      ensures asks == if o.side.Sell? then GrowLevel(old(asks), o.price, r) else old(asks)
    {
      hide OS.Append, OS.PutKey;
      var lv := LevelsOf(o.side);
      var level := if o.price in lv then lv[o.price] else Level(OS.NULL, OS.NULL);
      r, pool := OS.Link(pool, o, level.tail);
      if level.head == OS.NULL {
        level := Level(r, r);
      } else {
        level := level.(tail := r);
      }
      SetLevel(o.side, o.price, level);
      index := OS.PutKey(index, o.client, o.coid, r);
    }

    method Delete(r: OS.Ref, ghost side: Side, ghost k: nat)
      requires Valid() && k < |State().s.L(side)| && r == State().s.L(side)[k]
      modifies this`pool, this`index, this`bids, this`asks, this`bidL, this`askL
      ensures Valid() && !OS.Knows(index, old(pool)[r].o.client, old(pool)[r].o.coid)
      ensures Contents() == old(Contents()).With(side, Remove(old(Contents()).Orders(side), k))
    {
      hide OS.Valid, LevelMap;
      ghost var c := State();
      RemoveValid(c, side, k);
      Dequeue(r);
      if side.Buy? {
        bidL := Remove(bidL, k);
      } else {
        askL := Remove(askL, k);
      }
      assert State() == Removed(c, side, k);
    }

    /** Unlinks, drops an emptied level, unindexes and frees: the pointer work of remove. */
    method Dequeue(r: OS.Ref)
      requires r in pool && OS.LinksLive(pool, r) && pool[r].o.client in index
      requires pool[r].o.price in if pool[r].o.side.Buy? then bids else asks
      modifies this`pool, this`index, this`bids, this`asks
      ensures pool == OS.Unlink(old(pool), r)
      ensures index == OS.EraseKey(old(index), old(pool)[r].o.client, old(pool)[r].o.coid)
      ensures bids == if old(pool)[r].o.side.Buy? then ShrinkLevel(old(bids), old(pool), r) else old(bids)
      ensures asks == if old(pool)[r].o.side.Sell? then ShrinkLevel(old(asks), old(pool), r) else old(asks)
    {
      hide OS.EraseKey, OS.Unlink;
      var n, o := pool[r], pool[r].o;
      var level := if o.side.Buy? then bids[o.price] else asks[o.price];

      if n.prev == OS.NULL {
        level := level.(head := n.next);
      }
      if n.next == OS.NULL {
        level := level.(tail := n.prev);
      }
      if level.head != OS.NULL {
        SetLevel(o.side, o.price, level);
      } else {
        EraseLevel(o.side, o.price);
      }
      index := OS.EraseKey(index, o.client, o.coid);
      pool := OS.Free(pool, r);
    }

    method EraseLevel(side: Side, p: Price)
      modifies this`bids, this`asks
      ensures bids == if side.Buy? then old(bids) - {p} else old(bids)
      ensures asks == if side.Sell? then old(asks) - {p} else old(asks)
    {
      if side.Buy? {
        bids := bids - {p};
      } else {
        asks := asks - {p};
      }
    }

    /** Writes the remaining quantity of the order at position k of its side. */
    method SetRemaining(r: OS.Ref, q: Quantity, ghost side: Side, ghost k: nat)
      requires Valid() && k < |State().s.L(side)| && r == State().s.L(side)[k] && r in pool
      modifies this`pool
      ensures Valid() && r in pool && pool[r].o == old(pool)[r].o.(remaining := q)
      ensures k < |old(Contents()).Orders(side)| && old(Contents()).Orders(side)[k] == old(pool)[r].o
      ensures Contents() == old(Contents()).With(side, old(Contents()).Orders(side)[k := pool[r].o])
    {
      hide OS.Valid, LevelMap;
      ghost var c := State();
      ResizeValid(c, side, k, q);
      pool := OS.SetRemaining(pool, r, q);
      assert State() == Resized(c, side, k, q);
    }

    /** One turn of the inner matching loop: fill against the head of the best level. */
    method FillHead(inc: Incoming, levelPrice: Price, left: Quantity) returns (left': Quantity)
      requires Valid() && Contents().Orders(inc.side.Opposite()) != []
      requires levelPrice == Contents().Orders(inc.side.Opposite())[0].price
      modifies this`pool, this`index, this`bids, this`asks, this`bidL, this`askL, port
      ensures Valid()
      ensures var opp := inc.side.Opposite();
              var m := FillFront(MapForm, old(Contents()).Orders(opp), inc, left, old(port.nextMatchId));
              && Contents() == old(Contents()).With(opp, m.rest)
              && left' == m.left && port.nextMatchId == m.mid && port.outs == old(port.outs) + m.outs
    {
      hide RepValid, Abs;
      ghost var opp := inc.side.Opposite();
      Front(State(), opp);
      var r := LevelsOf(inc.side.Opposite())[levelPrice].head;
      var fill := Min(left, pool[r].o.remaining);
      var mid := port.NextMatchId();

      left' := left - fill;
      SetRemaining(r, pool[r].o.remaining - fill, opp, 0);
      var o := pool[r].o;

      port.SendClientResponse(ExecutedResting(inc, o, fill, mid));
      port.SendClientResponse(ExecutedAggressor(inc, o, fill, left', mid));
      port.SendMarketUpdate(TradeUpdate(MapForm, inc, o, fill, mid));

      if o.remaining == 0 {
        Delete(r, opp, 0);
      }
    }

    method MatchIncoming(inc: Incoming) returns (left: Quantity)
      requires Valid()
      modifies this`pool, this`index, this`bids, this`asks, this`bidL, this`askL, port
      ensures Valid()
      ensures var opp := inc.side.Opposite();
              var m := Match(MapForm, old(Contents()).Orders(opp), inc, inc.qty, old(port.nextMatchId));
              && Contents() == old(Contents()).With(opp, m.rest)
              && left == m.left && port.nextMatchId == m.mid && port.outs == old(port.outs) + m.outs
    {
      hide RepValid, Abs, FillFront;
      var opp := inc.side.Opposite();
      left := inc.qty;
      ghost var done: seq<Output> := [];
      ghost var total := Match(MapForm, Contents().Orders(opp), inc, left, port.nextMatchId);
      assert Prepend([], total) == total;
      Front(State(), opp);
      while LevelsOf(opp) != map[] && left > 0
        invariant Valid()
        invariant Contents() == old(Contents()).With(opp, Contents().Orders(opp))
        invariant port.outs == old(port.outs) + done
        invariant Matching(total, done, MapForm, Contents().Orders(opp), inc, left, port.nextMatchId)
        decreases |Contents().Orders(opp)|, left
      {
        Front(State(), opp);
        var levelPrice := Begin(opp, LevelsOf(opp));
        if !Crosses(inc.side, inc.price, levelPrice) {
          break;
        }
        FrontIsBest(State(), opp);
        ghost var n, left0 := |Contents().Orders(opp)|, left;
        while levelPrice in LevelsOf(opp) && LevelsOf(opp)[levelPrice].head != OS.NULL && left > 0
          invariant Valid()
          invariant Contents() == old(Contents()).With(opp, Contents().Orders(opp))
          invariant port.outs == old(port.outs) + done
          invariant Matching(total, done, MapForm, Contents().Orders(opp), inc, left, port.nextMatchId)
          invariant NoneBetter(opp, Contents().Orders(opp), levelPrice)
          invariant
            var v := Contents().Orders(opp);
            || |v| < n || (|v| == n && left < left0)
            || (|v| == n && left == left0 && levelPrice in LevelsOf(opp) && LevelsOf(opp)[levelPrice].head != OS.NULL)
          decreases |Contents().Orders(opp)|, left
        {
          FrontOrGone(State(), opp, levelPrice);
          MatchingStep(total, done, MapForm, Contents().Orders(opp), inc, left, port.nextMatchId, levelPrice);
          done := done + FillFront(MapForm, Contents().Orders(opp), inc, left, port.nextMatchId).outs;
          left := FillHead(inc, levelPrice, left);
        }
      }
      Front(State(), opp);
      MatchingEnds(total, done, MapForm, Contents().Orders(opp), inc, left, port.nextMatchId);
    }

    /** The book, the match counter and the emitted messages are those of the reference step. */
    twostate predicate Did(r: StepResult)
      reads this, port
    {
      Valid() && Contents() == r.book && port.nextMatchId == r.mid && port.outs == old(port.outs) + r.outs
    }

    method TakeOrderId() returns (moid: OrderId)
      requires Valid()
      modifies this`nextMarketOrderId
      ensures Valid() && moid == old(Contents()).nextId
      ensures Contents() == old(Contents()).(nextId := moid + 1) && State() == old(State()).(nextId := moid + 1)
    {
      hide OS.Valid, LevelMap;
      moid := nextMarketOrderId;
      nextMarketOrderId := nextMarketOrderId + 1;
    }

    /** Matches a new order and rests, or drops and reports, what is left of it. */
    method EnterNew(inc: Incoming)
      requires Valid() && !Present(Contents(), inc.client, inc.coid)
      modifies this`pool, this`index, this`bids, this`asks, this`bidL, this`askL, port
      ensures Valid()
      ensures var b := old(Contents());
              var m := Match(MapForm, b.Orders(inc.side.Opposite()), inc, inc.qty, old(port.nextMatchId));
              && Contents() == Settle(b, inc, m.rest, m.left) && port.nextMatchId == m.mid
              && port.outs == old(port.outs) + (m.outs + AddTail(inc, m.left))
    {
      hide RepValid, Abs, Match, Find;
      AbsentAfterMatch(MapForm, Contents(), inc, port.nextMatchId, inc.client, inc.coid);
      var left := MatchIncoming(inc);
      if left > 0 {
        if inc.otype.GoodTillCancel? {
          Insert(Resting(inc, left));
          port.SendMarketUpdate(PlainUpdate(inc.ticker, inc.moid, Add, inc.side, inc.price, left, INVALID_ID));
        } else {
          port.SendClientResponse(Notice(inc, Canceled, left));
        }
      }
    }

    method AddOrder(req: Request)
      requires Valid() && !Present(Contents(), req.client, req.coid)
      modifies this, port
      ensures Did(AddStep(MapForm, old(Contents()), old(port.nextMatchId), req))
    {
      hide RepValid, Abs, Match, Settle, AddTail;
      var moid := TakeOrderId();
      var inc := Incoming(req.ticker, req.client, req.coid, moid, req.otype, req.price, req.qty, req.side, req.token);
      port.SendClientResponse(Notice(inc, Accepted, inc.qty));
      EnterNew(inc);
    }

    method CancelOrder(req: Request)
      requires Valid()
      modifies this, port
      ensures Did(CancelStep(MapForm, old(Contents()), old(port.nextMatchId), req))
    {
      hide RepValid, Abs, Find;
      ghost var k := Lookup(State(), req.client, req.coid);
      if req.client !in index {
        port.SendClientResponse(UnknownReject(req));
        return;
      }
      if req.coid !in index[req.client] {
        port.SendClientResponse(UnknownReject(req));
        return;
      }

      var r := index[req.client][req.coid];
      var o := pool[r].o;
      var canceled := if req.qty == 0 then o.remaining else req.qty;
      if canceled > o.remaining {
        port.SendClientResponse(ExcessReject(req, o));
        return;
      }

      port.SendMarketUpdate(CancelUpdate(req, o, canceled));
      SetRemaining(r, o.remaining - canceled, o.side, k);
      port.SendClientResponse(CanceledResponse(MapForm, req, o, canceled));
      if pool[r].o.remaining == 0 {
        Delete(r, o.side, k);
      }
    }

    /** Takes the successor's id and removes the order that is being replaced. */
    method Withdraw(req: Request) returns (side: Side, oldMoid: OrderId, newMoid: OrderId)
      requires Valid() && Fresh(Contents(), req.(action := ModifyOrder))
      requires OS.Knows(index, req.client, req.coid) && Present(Contents(), req.client, req.coid)
      modifies this
      ensures Valid() && Contents() == WithoutReplaced(old(Contents()), req)
      ensures side == Replaced(old(Contents()), req).side && oldMoid == Replaced(old(Contents()), req).moid
      ensures newMoid == old(Contents()).nextId
      ensures !Present(Contents(), req.client, req.newCoid)
    {
      hide RepValid, Abs, Find;
      ghost var b := Contents();
      ghost var k := Lookup(State(), req.client, req.coid);
      var r := index[req.client][req.coid];
      side, oldMoid := pool[r].o.side, pool[r].o.moid;
      newMoid := TakeOrderId();
      Delete(r, side, k);
      ghost var _ := Lookup(State(), req.client, req.coid);
      if req.newCoid != req.coid {
        AbsentAfterRemoval(b, req, req.client, req.newCoid);
      }
    }

    /** Matches a replacement and rests, or drops and announces, what is left of it. */
    method EnterReplacement(inc: Incoming)
      requires Valid() && !Present(Contents(), inc.client, inc.coid)
      modifies this`pool, this`index, this`bids, this`asks, this`bidL, this`askL, port
      ensures Valid()
      ensures var b := old(Contents());
              var m := Match(MapForm, b.Orders(inc.side.Opposite()), inc, inc.qty, old(port.nextMatchId));
              && Contents() == Settle(b, inc, m.rest, m.left) && port.nextMatchId == m.mid
              && port.outs == old(port.outs) + (m.outs + ReplaceTail(MapForm, inc, m.left))
    {
      hide RepValid, Abs, Match, Find;
      AbsentAfterMatch(MapForm, Contents(), inc, port.nextMatchId, inc.client, inc.coid);
      var left := MatchIncoming(inc);
      if left == 0 {
        return;
      }
      if inc.otype.GoodTillCancel? {
        Insert(Resting(inc, left));
        return;
      }
      port.SendClientResponse(Notice(inc, Canceled, left));
      port.SendMarketUpdate(PlainUpdate(inc.ticker, inc.moid, Cancel, inc.side, inc.price, left, INVALID_ID));
    }

    method ReplaceOrder(req: Request)
      requires Valid() && Fresh(Contents(), req.(action := ModifyOrder))
      modifies this, port
      ensures Did(ReplaceStep(MapForm, old(Contents()), old(port.nextMatchId), req))
    {
      hide RepValid, Abs, Match, Find, WithoutReplaced, Settle, ReplaceTail;
      ghost var k := Lookup(State(), req.client, req.coid);
      if req.client !in index {
        port.SendClientResponse(UnknownReject(req));
        return;
      }
      if req.coid !in index[req.client] || req.newCoid == 0 || req.qty == 0 {
        port.SendClientResponse(UnknownReject(req));
        return;
      }

      var side, oldMoid, newMoid := Withdraw(req);
      var inc := Incoming(req.ticker, req.client, req.newCoid, newMoid, req.otype, req.price, req.qty, side, req.token);
      port.SendClientResponse(Notice(inc, Modified, inc.qty));
      port.SendMarketUpdate(PlainUpdate(inc.ticker, oldMoid, Modify, side, inc.price, inc.qty, newMoid));
      EnterReplacement(inc);
    }
  }
}
