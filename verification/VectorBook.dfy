/** The vector order book: a dense array of levels per side, threaded by a sorted list from a cached best. */
module VectorBook {
  import opened Types
  import opened PriceTime
  import opened EnginePort
  import opened VectorLevels
  import Greedy
  import OS = OrderStore

  /** The fields of a book, with the ghost priority lists. */
  datatype Rep = Rep(s: OS.Store, bids: Levels, asks: Levels, bestBid: LevelRef, bestAsk: LevelRef, nextId: OrderId) {
    function LevelsOf(side: Side): Levels {
      if side.Buy? then bids else asks
    }

    function Best(side: Side): LevelRef {
      if side.Buy? then bestBid else bestAsk
    }

    function With(side: Side, lv: Levels, best: LevelRef): Rep {
      if side.Buy? then this.(bids := lv, bestBid := best) else this.(asks := lv, bestAsk := best)
    }
  }

  ghost predicate RepValid(c: Rep) {
    && OS.Valid(c.s)
    && LevelArray(c.s.pool, c.s.bidL, c.bids, c.bestBid)
    && LevelArray(c.s.pool, c.s.askL, c.asks, c.bestAsk)
  }

  /** The reference book that the fields represent. */
  ghost function Abs(c: Rep): PriceTime.Book
    requires RepValid(c)
  {
    OS.Abs(c.s, c.nextId)
  }

  // ---------------------------------------------------------------- insertion

  function TailOf(lv: Levels, p: Price): OS.Ref
    requires p < |lv|
  {
    if lv[p].head == OS.NULL then OS.NULL else lv[p].tail
  }

  ghost predicate InsertReady(c: Rep, k: nat, o: Order)
    requires RepValid(c)
  {
    var l, lv := c.s.L(o.side), c.LevelsOf(o.side);
    && o.price < |lv| && k == InsertPos(o.side, OS.Values(c.s.pool, l), o.price) <= |l|
    && OS.Slot(o.side, c.s.pool, l, k, o.price, TailOf(lv, o.price))
    && (lv[o.price].head != OS.NULL ==> lv[o.price].tail != OS.NULL && lv[o.price].tail in c.s.pool)
    && (lv[o.price].head == OS.NULL ==> lv[o.price] == Vacant(o.price))
    && (lv[o.price].head == OS.NULL <==> k == 0 || OS.PriceAt(c.s.pool, l, k - 1) != o.price)
    && !OS.Knows(c.s.index, o.client, o.coid)
  }

  lemma TailIsSlot(side: Side, pool: OS.Pool, l: seq<OS.Ref>, lv: Levels, best: LevelRef, p: Price) returns (k: nat)
    requires OS.Chain(side, pool, l) && LevelArray(pool, l, lv, best) && p < |lv|
    ensures k == InsertPos(side, OS.Values(pool, l), p) <= |l|
    ensures OS.Slot(side, pool, l, k, p, TailOf(lv, p))
    ensures lv[p].head == OS.NULL ==> lv[p] == Vacant(p)
    ensures lv[p].head != OS.NULL ==> lv[p].tail != OS.NULL && lv[p].tail in pool
    ensures lv[p].head == OS.NULL <==> k == 0 || OS.PriceAt(pool, l, k - 1) != p
  {
    k := OS.SlotExists(side, pool, l, p);
    HeadTellsOccupied(side, pool, l, lv, best, p);
    if lv[p].head != OS.NULL {
      var j :| 0 <= j < |l| && OS.PriceAt(pool, l, j) == p;
      if j < k - 1 {
        assert !Better(side, OS.PriceAt(pool, l, k - 1), OS.PriceAt(pool, l, j));
      }
      OS.SlotSplits(side, pool, l, k, p, if 0 < k && OS.PriceAt(pool, l, k - 1) == p then l[k - 1] else OS.NULL);
      assert LevelAt(pool, l, lv, k - 1);
    } else if 0 < k {
      assert OS.PriceAt(pool, l, k - 1) != p;
    }
  }

  lemma PrepareInsert(c: Rep, o: Order) returns (k: nat)
    requires RepValid(c) && !Present(Abs(c), o.client, o.coid) && o.price < MAX_PRICE_LEVELS
    ensures InsertReady(c, k, o)
  {
    k := TailIsSlot(o.side, c.s.pool, c.s.L(o.side), c.LevelsOf(o.side), c.Best(o.side), o.price);
    if OS.Knows(c.s.index, o.client, o.coid) {
      var i := OS.Locate(c.s, o.client, o.coid, c.nextId);
    }
  }

  ghost function Inserted(c: Rep, k: nat, r: OS.Ref, o: Order, lv: Levels): Rep
    requires k <= |c.s.L(o.side)| && r !in c.s.pool && o.price < |c.LevelsOf(o.side)|
    requires var tail := TailOf(c.LevelsOf(o.side), o.price); tail != OS.NULL ==> tail in c.s.pool
  {
    c.(s := OS.Inserted(c.s, k, r, o, TailOf(c.LevelsOf(o.side), o.price)))
    .With(o.side, lv, GrownBest(k, o.price, c.Best(o.side)))
  }

  lemma InsertValid(c: Rep, k: nat, r: OS.Ref, o: Order, lv: Levels)
    requires RepValid(c) && InsertReady(c, k, o) && r != OS.NULL && r !in c.s.pool
    requires Grown(c.s.pool, c.s.L(o.side), k, r, o.price, c.LevelsOf(o.side), lv)
    ensures RepValid(Inserted(c, k, r, o, lv))
    ensures Abs(Inserted(c, k, r, o, lv)) == Abs(c).With(o.side, PriceTime.Insert(Abs(c).Orders(o.side), o))
  {
    hide OS.Indexed, OS.Append, OS.PutKey, OS.Slot, OS.Linked, OS.PriceSorted, OS.Distinct, LevelArray, Grown;
    var tail, other := TailOf(c.LevelsOf(o.side), o.price), o.side.Opposite();
    OS.InsertValid(c.s, k, r, o, tail, c.nextId);
    GrowArray(o.side, c.s.pool, c.s.L(o.side), c.LevelsOf(o.side), c.Best(o.side), k, r, o, tail, lv);
    ArrayUntouched(c.s.pool, OS.Append(c.s.pool, r, o, tail), c.s.L(other), c.LevelsOf(other), c.Best(other));
  }

  // ---------------------------------------------------------------- removal

  ghost predicate Removable(c: Rep, side: Side, k: nat) {
    && k < |c.s.L(side)| && c.s.L(side)[k] in c.s.pool && OS.LinksLive(c.s.pool, c.s.L(side)[k])
    && var o, lv := c.s.pool[c.s.L(side)[k]].o, c.LevelsOf(side);
    && o.side == side && o.client in c.s.index && o.price < |lv|
    && InRange(lv, lv[o.price].next) && InRange(lv, lv[o.price].prev)
    && lv[o.price].price == o.price && lv[o.price].head != OS.NULL
  }

  /** What unlinking r does to its level: new ends, and a cut once the head is gone. */
  function ShrinkLevel(lv: Levels, n: OS.Node): Levels
    requires n.o.price < |lv| && InRange(lv, lv[n.o.price].next) && InRange(lv, lv[n.o.price].prev)
  {
    var p := n.o.price;
    var head := if n.prev != OS.NULL then lv[p].head else n.next;
    var tail := if n.next != OS.NULL then lv[p].tail else n.prev;
    if head == OS.NULL then Cut(lv, p) else lv[p := lv[p].(head := head, tail := tail)]
  }

  function BestAfter(lv: Levels, n: OS.Node, best: LevelRef): LevelRef
    requires n.o.price < |lv|
  {
    ShrunkBest(best, n.o.price, n.prev == OS.NULL && n.next == OS.NULL, lv[n.o.price].next)
  }

  lemma ShrinkIsShrunk(side: Side, pool: OS.Pool, l: seq<OS.Ref>, lv: Levels, best: LevelRef, k: nat)
    requires OS.Chain(side, pool, l) && LevelArray(pool, l, lv, best) && k < |l|
    ensures var n := pool[l[k]];
            && n.o.price < |lv| && InRange(lv, lv[n.o.price].next) && InRange(lv, lv[n.o.price].prev)
            && lv[n.o.price].price == n.o.price && lv[n.o.price].head != OS.NULL
            && Shrunk(pool, l, k, lv, ShrinkLevel(lv, n))
            && (n.prev == OS.NULL <==> OS.Opens(pool, l, k)) && (n.next == OS.NULL <==> OS.Closes(pool, l, k))
  {
    OS.NeighboursLive(side, pool, l, k);
    HeadLive(side, pool, l, lv, k);
    PrevInRange(side, pool, l, lv, best, k);
    NextInRange(side, pool, l, lv, best, k);
    assert k + 1 < |l| ==> l[k + 1] != OS.NULL;
    assert 0 < k ==> l[k - 1] != OS.NULL;
  }

  ghost function Removed(c: Rep, side: Side, k: nat): Rep
    requires Removable(c, side, k)
  {
    var n, lv := c.s.pool[c.s.L(side)[k]], c.LevelsOf(side);
    c.(s := OS.Removed(c.s, side, k)).With(side, ShrinkLevel(lv, n), BestAfter(lv, n, c.Best(side)))
  }

  lemma RemoveValid(c: Rep, side: Side, k: nat)
    requires RepValid(c) && k < |c.s.L(side)|
    ensures Removable(c, side, k)
    ensures RepValid(Removed(c, side, k))
    ensures Abs(Removed(c, side, k)) == Abs(c).With(side, Remove(Abs(c).Orders(side), k))
  {
    hide OS.Indexed, OS.Unlink, OS.EraseKey, OS.Linked, OS.PriceSorted, OS.Distinct, LevelArray, Shrunk;
    var l, lv, other := c.s.L(side), c.LevelsOf(side), side.Opposite();
    OS.RemoveValid(c.s, side, k, c.nextId);
    ShrinkIsShrunk(side, c.s.pool, l, lv, c.Best(side), k);
    ShrinkArray(side, c.s.pool, l, lv, c.Best(side), k, ShrinkLevel(lv, c.s.pool[l[k]]));
    ArrayUntouched(c.s.pool, OS.Unlink(c.s.pool, l[k]), c.s.L(other), c.LevelsOf(other), c.Best(other));
  }

  // ---------------------------------------------------------------- shrinking

  ghost function Resized(c: Rep, side: Side, k: nat, q: Quantity): Rep
    requires k < |c.s.L(side)| && c.s.L(side)[k] in c.s.pool
  {
    c.(s := OS.Resized(c.s, side, k, q))
  }

  lemma ResizeValid(c: Rep, side: Side, k: nat, q: Quantity)
    requires RepValid(c) && k < |c.s.L(side)|
    ensures c.s.L(side)[k] in c.s.pool
    ensures RepValid(Resized(c, side, k, q))
    ensures var l := Abs(c).Orders(side);
            && l[k] == c.s.pool[c.s.L(side)[k]].o
            && Abs(Resized(c, side, k, q)) == Abs(c).With(side, l[k := l[k].(remaining := q)])
  {
    hide LevelArray, OS.Indexed;
    OS.ResizeValid(c.s, side, k, q, c.nextId);
    var pool' := OS.SetRemaining(c.s.pool, c.s.L(side)[k], q);
    ArrayFrame(c.s.pool, pool', c.s.bidL, c.bids, c.bestBid);
    ArrayFrame(c.s.pool, pool', c.s.askL, c.asks, c.bestAsk);
  }

  // ---------------------------------------------------------------- the front of a side

  /** The cached best level holds the first order in priority order. */
  lemma Front(c: Rep, side: Side)
    requires RepValid(c)
    ensures Abs(c).Orders(side) == [] <==> c.Best(side) == NIL
    ensures |Abs(c).Orders(side)| == |c.s.L(side)|
    ensures Abs(c).Orders(side) != [] ==>
      var o, p, lv := Abs(c).Orders(side)[0], c.Best(side), c.LevelsOf(side);
      && 0 <= p < |lv| && p == o.price && lv[p].price == p
      && lv[p].head == c.s.L(side)[0] && c.s.L(side)[0] in c.s.pool
      && c.s.pool[c.s.L(side)[0]].o == o && c.s.L(side)[0] != OS.NULL
  {
    if c.s.L(side) != [] {
      assert LevelAt(c.s.pool, c.s.L(side), c.LevelsOf(side), 0);
    }
  }

  lemma FrontIsBest(c: Rep, side: Side)
    requires RepValid(c) && Abs(c).Orders(side) != []
    ensures NoneBetter(side, Abs(c).Orders(side), Abs(c).Orders(side)[0].price)
  {
    var l, v := c.s.L(side), Abs(c).Orders(side);
    forall i | 0 <= i < |v|
      ensures !Better(side, v[i].price, v[0].price)
    {
      assert i > 0 ==> !Better(side, OS.PriceAt(c.s.pool, l, i), OS.PriceAt(c.s.pool, l, 0));
    }
  }

  /** A level that is at least as good as every resting order has a head iff it is the best level. */
  lemma FrontOrGone(c: Rep, side: Side, p: Price)
    requires RepValid(c) && p < |c.LevelsOf(side)|
    requires NoneBetter(side, Abs(c).Orders(side), p)
    ensures c.LevelsOf(side)[p].head != OS.NULL <==>
            Abs(c).Orders(side) != [] && Abs(c).Orders(side)[0].price == p
  {
    var l, v := c.s.L(side), Abs(c).Orders(side);
    HeadTellsOccupied(side, c.s.pool, l, c.LevelsOf(side), c.Best(side), p);
    assert forall i :: 0 <= i < |l| ==> v[i].price == OS.PriceAt(c.s.pool, l, i);
    if OS.Occupied(c.s.pool, l, p) {
      var i :| 0 <= i < |l| && OS.PriceAt(c.s.pool, l, i) == p;
      assert i > 0 ==> !Better(side, OS.PriceAt(c.s.pool, l, i), OS.PriceAt(c.s.pool, l, 0));
    }
  }

  /** The index and a search of the reference book find the same order. */
  lemma Lookup(c: Rep, client: ClientId, coid: OrderId) returns (k: nat)
    requires RepValid(c)
    ensures OS.Knows(c.s.index, client, coid) <==> Present(Abs(c), client, coid)
    ensures OS.Knows(c.s.index, client, coid) ==>
      var r, side := c.s.index[client][coid], SideOf(Abs(c), client, coid);
      && k == Find(Abs(c).Orders(side), client, coid) < |c.s.L(side)| == |Abs(c).Orders(side)|
      && c.s.L(side)[k] == r && r in c.s.pool && c.s.pool[r].o == Abs(c).Orders(side)[k]
      && c.s.pool[r].o.side == side && HasKey(c.s.pool[r].o, client, coid)
  {
    if OS.Knows(c.s.index, client, coid) {
      k := OS.Locate(c.s, client, coid, c.nextId);
    } else {
      k := 0;
      OS.LocateNothing(c.s, client, coid, c.nextId);
    }
  }

  // ---------------------------------------------------------------- the class

  class Book {
    const port: Port
    var pool: OS.Pool
    var index: OS.Index
    var bids: Levels
    var asks: Levels
    var bestBid: LevelRef
    var bestAsk: LevelRef
    var nextMarketOrderId: OrderId
    ghost var bidL: seq<OS.Ref>
    ghost var askL: seq<OS.Ref>

    ghost function State(): Rep
      reads this
    {
      Rep(OS.Store(pool, index, bidL, askL), bids, asks, bestBid, bestAsk, nextMarketOrderId)
    }

    function LevelsOf(side: Side): Levels
      reads this
      ensures LevelsOf(side) == State().LevelsOf(side)
    {
      if side.Buy? then bids else asks
    }

    function Best(side: Side): LevelRef
      reads this
      ensures Best(side) == State().Best(side)
    {
      if side.Buy? then bestBid else bestAsk
    }

    ghost predicate Valid()
      reads this
    {
      RepValid(State())
    }

    ghost function Contents(): PriceTime.Book
      reads this
      requires Valid()
    {
      Abs(State())
    }

    constructor (port: Port)
      ensures Valid() && Contents() == EMPTY && this.port == port
    {
      this.port := port;
      pool, index, nextMarketOrderId := map[], map[], 1;
      bids, asks := seq(MAX_PRICE_LEVELS, (p: nat) => Vacant(p)), seq(MAX_PRICE_LEVELS, (p: nat) => Vacant(p));
      bestBid, bestAsk := NIL, NIL;
      bidL, askL := [], [];
    }

    method SetLevels(side: Side, lv: Levels, best: LevelRef)
      modifies this`bids, this`asks, this`bestBid, this`bestAsk
      ensures State() == old(State()).With(side, lv, best)
    {
      if side.Buy? {
        bids, bestBid := lv, best;
      } else {
        asks, bestAsk := lv, best;
      }
    }

    method Insert(o: Order)
      requires Valid() && !Present(Contents(), o.client, o.coid) && o.price < MAX_PRICE_LEVELS
      modifies this`pool, this`index, this`bids, this`asks, this`bestBid, this`bestAsk, this`bidL, this`askL
      ensures Valid()
      ensures Contents() == old(Contents()).With(o.side, PriceTime.Insert(old(Contents()).Orders(o.side), o))
    {
      hide OS.Valid, LevelArray, OS.Slot, Grown;
      ghost var c := State();
      ghost var k := PrepareInsert(c, o);
      var r := Enqueue(o, k);
      if o.side.Buy? {
        bidL := OS.InsertAt(bidL, k, r);
      } else {
        askL := OS.InsertAt(askL, k, r);
      }
      InsertValid(c, k, r, o, LevelsOf(o.side));
      assert State() == Inserted(c, k, r, o, LevelsOf(o.side));
    }

    /** Allocates, opens the level if needed, queues at its tail and indexes: the pointer work of insert. */
    method Enqueue(o: Order, ghost k: nat) returns (r: OS.Ref)
      requires Valid() && InsertReady(State(), k, o)
      modifies this`pool, this`index, this`bids, this`asks, this`bestBid, this`bestAsk
      ensures r != OS.NULL && r !in old(pool)
      ensures pool == OS.Append(old(pool), r, o, TailOf(old(LevelsOf(o.side)), o.price))
      ensures index == OS.PutKey(old(index), o.client, o.coid, r)
      ensures Grown(old(pool), old(State()).s.L(o.side), k, r, o.price, old(LevelsOf(o.side)), LevelsOf(o.side))
      ensures State() == old(State()).(s := State().s)
                                     .With(o.side, LevelsOf(o.side), GrownBest(k, o.price, old(Best(o.side))))
    {
      hide OS.Valid, LevelArray, OS.Slot, Grown, OS.Append, OS.PutKey;
      ghost var pool0, l := pool, State().s.L(o.side);
      SideFacts(State(), o.side);
      var lv := LevelsOf(o.side);
      r, pool := OS.Link(pool, o, TailOf(lv, o.price));
      var lv', best := QueueInLevel(o.side, lv, Best(o.side), o.price, r, pool0, l, k);
      SetLevels(o.side, lv', best);
      index := OS.PutKey(index, o.client, o.coid, r);
    }

    method Delete(r: OS.Ref, ghost side: Side, ghost k: nat)
      requires Valid() && k < |State().s.L(side)| && r == State().s.L(side)[k]
      modifies this`pool, this`index, this`bids, this`asks, this`bestBid, this`bestAsk, this`bidL, this`askL
      ensures Valid() && !OS.Knows(index, old(pool)[r].o.client, old(pool)[r].o.coid)
      ensures |LevelsOf(side)| == |old(LevelsOf(side))|
      ensures Contents() == old(Contents()).With(side, Remove(old(Contents()).Orders(side), k))
    {
      hide OS.Valid, LevelArray;
      ghost var c := State();
      RemoveValid(c, side, k);
      Dequeue(r);
      if side.Buy? {
        bidL := Remove(bidL, k);
      } else {
        askL := Remove(askL, k);
      }
      assert State() == Removed(c, side, k);
    }

    /** Unlinks, cuts an emptied level out, unindexes and frees: the pointer work of remove. */
    method Dequeue(r: OS.Ref)
      requires r in pool && OS.LinksLive(pool, r) && pool[r].o.client in index
      requires var lv, p := LevelsOf(pool[r].o.side), pool[r].o.price;
               && p < |lv| && InRange(lv, lv[p].next) && InRange(lv, lv[p].prev)
               && lv[p].price == p && lv[p].head != OS.NULL
      modifies this`pool, this`index, this`bids, this`asks, this`bestBid, this`bestAsk
      ensures pool == OS.Unlink(old(pool), r)
      ensures index == OS.EraseKey(old(index), old(pool)[r].o.client, old(pool)[r].o.coid)
      ensures var n, lv := old(pool)[r], old(LevelsOf(pool[r].o.side));
              State() == old(State()).(s := State().s)
                         .With(n.o.side, ShrinkLevel(lv, n), BestAfter(lv, n, old(Best(pool[r].o.side))))
    {
      hide OS.EraseKey, OS.Unlink;
      var n := pool[r];
      var lv, best := UnqueueInLevel(LevelsOf(n.o.side), Best(n.o.side), n);
      SetLevels(n.o.side, lv, best);
      index := OS.EraseKey(index, n.o.client, n.o.coid);
      pool := OS.Free(pool, r);
    }

    /** Writes the remaining quantity of the order at position k of its side. */
    method SetRemaining(r: OS.Ref, q: Quantity, ghost side: Side, ghost k: nat)
      requires Valid() && k < |State().s.L(side)| && r == State().s.L(side)[k] && r in pool
      modifies this`pool
      ensures Valid() && r in pool && pool[r].o == old(pool)[r].o.(remaining := q)
      ensures k < |old(Contents()).Orders(side)| && old(Contents()).Orders(side)[k] == old(pool)[r].o
      ensures Contents() == old(Contents()).With(side, old(Contents()).Orders(side)[k := pool[r].o])
    {
      hide OS.Valid, LevelArray;
      ghost var c := State();
      ResizeValid(c, side, k, q);
      pool := OS.SetRemaining(pool, r, q);
      assert State() == Resized(c, side, k, q);
    }

    /** One turn of the inner matching loop: fill against the head of the best level. */
    method FillHead(inc: Incoming, level: LevelRef, left: Quantity) returns (left': Quantity)
      requires Valid() && Contents().Orders(inc.side.Opposite()) != []
      requires level == Contents().Orders(inc.side.Opposite())[0].price
      modifies this`pool, this`index, this`bids, this`asks, this`bestBid, this`bestAsk, this`bidL, this`askL, port
      ensures Valid()
      ensures var opp := inc.side.Opposite();
              var m := FillFront(VectorForm, old(Contents()).Orders(opp), inc, left, old(port.nextMatchId));
              && Contents() == old(Contents()).With(opp, m.rest)
              && left' == m.left && port.nextMatchId == m.mid && port.outs == old(port.outs) + m.outs
      ensures |LevelsOf(inc.side.Opposite())| == |old(LevelsOf(inc.side.Opposite()))|
    {
      hide RepValid, Abs;
      ghost var opp := inc.side.Opposite();
      Front(State(), opp);
      var r := LevelsOf(inc.side.Opposite())[level].head;
      var fill := Min(left, pool[r].o.remaining);
      var mid := port.NextMatchId();

      left' := left - fill;
      SetRemaining(r, pool[r].o.remaining - fill, opp, 0);
      var o := pool[r].o;

      port.SendClientResponse(ExecutedResting(inc, o, fill, mid));
      port.SendClientResponse(ExecutedAggressor(inc, o, fill, left', mid));
      port.SendMarketUpdate(TradeUpdate(VectorForm, inc, o, fill, mid));

      if o.remaining == 0 {
        Delete(r, opp, 0);
      }
    }

    method MatchIncoming(inc: Incoming) returns (left: Quantity)
      requires Valid()
      modifies this`pool, this`index, this`bids, this`asks, this`bestBid, this`bestAsk, this`bidL, this`askL, port
      ensures Valid()
      ensures var opp := inc.side.Opposite();
              var m := Match(VectorForm, old(Contents()).Orders(opp), inc, inc.qty, old(port.nextMatchId));
              && Contents() == old(Contents()).With(opp, m.rest)
              && left == m.left && port.nextMatchId == m.mid && port.outs == old(port.outs) + m.outs
    {
      hide RepValid, Abs, FillFront;
      var opp := inc.side.Opposite();
      left := inc.qty;
      ghost var done: seq<Output> := [];
      ghost var total := Match(VectorForm, Contents().Orders(opp), inc, left, port.nextMatchId);
      assert Prepend([], total) == total;
      Front(State(), opp);
      var level := Best(opp);
      while level != NIL && left > 0
        invariant Valid() && level == Best(opp)
        invariant Contents() == old(Contents()).With(opp, Contents().Orders(opp))
        invariant port.outs == old(port.outs) + done
        invariant Matching(total, done, VectorForm, Contents().Orders(opp), inc, left, port.nextMatchId)
        decreases |Contents().Orders(opp)|, left
      {
        Front(State(), opp);
        if !Crosses(inc.side, inc.price, LevelsOf(opp)[level].price) {
          break;
        }
        FrontIsBest(State(), opp);
        ghost var n, left0 := |Contents().Orders(opp)|, left;
        while LevelsOf(opp)[level].head != OS.NULL && left > 0
          invariant Valid() && 0 <= level < |LevelsOf(opp)|
          invariant Contents() == old(Contents()).With(opp, Contents().Orders(opp))
          invariant port.outs == old(port.outs) + done
          invariant Matching(total, done, VectorForm, Contents().Orders(opp), inc, left, port.nextMatchId)
          invariant NoneBetter(opp, Contents().Orders(opp), level)
          invariant
            var v := Contents().Orders(opp);
            || |v| < n || (|v| == n && left < left0)
            || (|v| == n && left == left0 && LevelsOf(opp)[level].head != OS.NULL)
          decreases |Contents().Orders(opp)|, left
        {
          FrontOrGone(State(), opp, level);
          MatchingStep(total, done, VectorForm, Contents().Orders(opp), inc, left, port.nextMatchId, level);
          done := done + FillFront(VectorForm, Contents().Orders(opp), inc, left, port.nextMatchId).outs;
          left := FillHead(inc, level, left);
        }
        level := Best(opp);  // the level may have emptied and left the list
      }
      Front(State(), opp);
      MatchingEnds(total, done, VectorForm, Contents().Orders(opp), inc, left, port.nextMatchId);
    }

    /** The book, the match counter and the emitted messages are those of the reference step. */
    twostate predicate Did(r: StepResult)
      reads this, port
    {
      Valid() && Contents() == r.book && port.nextMatchId == r.mid && port.outs == old(port.outs) + r.outs
    }

    method TakeOrderId() returns (moid: OrderId)
      requires Valid()
      modifies this`nextMarketOrderId
      ensures Valid() && moid == old(Contents()).nextId
      ensures Contents() == old(Contents()).(nextId := moid + 1) && State() == old(State()).(nextId := moid + 1)
    {
      hide OS.Valid, LevelArray;
      moid := nextMarketOrderId;
      nextMarketOrderId := nextMarketOrderId + 1;
    }

    /** Matches a new order and rests, or drops and reports, what is left of it. */
    method EnterNew(inc: Incoming)
      requires Valid() && !Present(Contents(), inc.client, inc.coid)
      requires inc.otype.GoodTillCancel? && Greedy.Liquidity(Contents().Orders(inc.side.Opposite()), inc) < inc.qty ==>
        inc.price < MAX_PRICE_LEVELS
      modifies this`pool, this`index, this`bids, this`asks, this`bestBid, this`bestAsk, this`bidL, this`askL, port
      ensures Valid()
      ensures var b := old(Contents());
              var m := Match(VectorForm, b.Orders(inc.side.Opposite()), inc, inc.qty, old(port.nextMatchId));
              && Contents() == Settle(b, inc, m.rest, m.left) && port.nextMatchId == m.mid
              && port.outs == old(port.outs) + (m.outs + AddTail(inc, m.left))
    {
      hide RepValid, Abs, Match, Find, Greedy.Liquidity;
      AbsentAfterMatch(VectorForm, Contents(), inc, port.nextMatchId, inc.client, inc.coid);
      Greedy.MatchTotal(VectorForm, Contents().Orders(inc.side.Opposite()), inc, inc.qty, port.nextMatchId);
      var left := MatchIncoming(inc);
      if left > 0 {
        if inc.otype.GoodTillCancel? {
          Insert(Resting(inc, left));
          port.SendMarketUpdate(PlainUpdate(inc.ticker, inc.moid, Add, inc.side, inc.price, left, INVALID_ID));
        } else {
          port.SendClientResponse(Notice(inc, Canceled, left));
        }
      }
    }

    method AddOrder(req: Request)
      requires Valid() && !Present(Contents(), req.client, req.coid)
      requires Greedy.Indexable(Contents(), req.(action := NewOrder))
      modifies this, port
      ensures Did(AddStep(VectorForm, old(Contents()), old(port.nextMatchId), req))
    {
      hide RepValid, Abs, Match, Settle, AddTail, Greedy.Liquidity;
      var moid := TakeOrderId();
      var inc := Incoming(req.ticker, req.client, req.coid, moid, req.otype, req.price, req.qty, req.side, req.token);
      port.SendClientResponse(Notice(inc, Accepted, inc.qty));
      EnterNew(inc);
    }

    method CancelOrder(req: Request)
      requires Valid()
      modifies this, port
      ensures Did(CancelStep(VectorForm, old(Contents()), old(port.nextMatchId), req))
    {
      hide RepValid, Abs, Find;
      ghost var k := Lookup(State(), req.client, req.coid);
      if req.client !in index {
        port.SendClientResponse(UnknownReject(req));
        return;
      }
      if req.coid !in index[req.client] {
        port.SendClientResponse(UnknownReject(req));
        return;
      }

      var r := index[req.client][req.coid];
      var o := pool[r].o;
      var canceled := if req.qty == 0 then o.remaining else req.qty;
      if canceled > o.remaining {
        port.SendClientResponse(ExcessReject(req, o));
        return;
      }

      port.SendMarketUpdate(CancelUpdate(req, o, canceled));
      SetRemaining(r, o.remaining - canceled, o.side, k);
      port.SendClientResponse(CanceledResponse(VectorForm, req, o, canceled));
      if pool[r].o.remaining == 0 {
        Delete(r, o.side, k);
      }
    }

    /** Takes the successor's id and removes the order that is being replaced. */
    method Withdraw(req: Request) returns (side: Side, oldMoid: OrderId, newMoid: OrderId)
      requires Valid() && Fresh(Contents(), req.(action := ModifyOrder))
      requires OS.Knows(index, req.client, req.coid) && Present(Contents(), req.client, req.coid)
      modifies this
      ensures Valid() && Contents() == WithoutReplaced(old(Contents()), req)
      ensures side == Replaced(old(Contents()), req).side && oldMoid == Replaced(old(Contents()), req).moid
      ensures newMoid == old(Contents()).nextId
      ensures !Present(Contents(), req.client, req.newCoid)
    {
      hide RepValid, Abs, Find;
      ghost var b := Contents();
      ghost var k := Lookup(State(), req.client, req.coid);
      var r := index[req.client][req.coid];
      side, oldMoid := pool[r].o.side, pool[r].o.moid;
      newMoid := TakeOrderId();
      Delete(r, side, k);
      ghost var _ := Lookup(State(), req.client, req.coid);
      if req.newCoid != req.coid {
        AbsentAfterRemoval(b, req, req.client, req.newCoid);
      }
    }

    /** Matches a replacement and rests what is left of it, if it is good till cancel. */
    method EnterReplacement(inc: Incoming)
      requires Valid() && !Present(Contents(), inc.client, inc.coid)
      requires inc.otype.GoodTillCancel? && Greedy.Liquidity(Contents().Orders(inc.side.Opposite()), inc) < inc.qty ==>
        inc.price < MAX_PRICE_LEVELS
      modifies this`pool, this`index, this`bids, this`asks, this`bestBid, this`bestAsk, this`bidL, this`askL, port
      ensures Valid()
      ensures var b := old(Contents());
              var m := Match(VectorForm, b.Orders(inc.side.Opposite()), inc, inc.qty, old(port.nextMatchId));
              && Contents() == Settle(b, inc, m.rest, m.left) && port.nextMatchId == m.mid
              && port.outs == old(port.outs) + (m.outs + ReplaceTail(VectorForm, inc, m.left))
    {
      hide RepValid, Abs, Match, Find, Greedy.Liquidity;
      AbsentAfterMatch(VectorForm, Contents(), inc, port.nextMatchId, inc.client, inc.coid);
      Greedy.MatchTotal(VectorForm, Contents().Orders(inc.side.Opposite()), inc, inc.qty, port.nextMatchId);
      var left := MatchIncoming(inc);
      if left > 0 && inc.otype.GoodTillCancel? {
        Insert(Resting(inc, left));
      }
    }

    method ReplaceOrder(req: Request)
      requires Valid() && Fresh(Contents(), req.(action := ModifyOrder))
      requires Greedy.Indexable(Contents(), req.(action := ModifyOrder))
      modifies this, port
      ensures Did(ReplaceStep(VectorForm, old(Contents()), old(port.nextMatchId), req))
    {
      hide RepValid, Abs, Match, Find, WithoutReplaced, Settle, ReplaceTail, Greedy.Liquidity;
      ghost var k := Lookup(State(), req.client, req.coid);
      if req.client !in index {
        port.SendClientResponse(UnknownReject(req));
        return;
      }
      if req.coid !in index[req.client] || req.newCoid == 0 || req.qty == 0 {
        port.SendClientResponse(UnknownReject(req));
        return;
      }

      Greedy.ReplaceIndexable(Contents(), req);
      var side, oldMoid, newMoid := Withdraw(req);
      var inc := Incoming(req.ticker, req.client, req.newCoid, newMoid, req.otype, req.price, req.qty, side, req.token);
      port.SendClientResponse(Notice(inc, Modified, inc.qty));
      port.SendMarketUpdate(PlainUpdate(inc.ticker, oldMoid, Modify, side, inc.price, inc.qty, newMoid));
      EnterReplacement(inc);
    }
  }

  /** The level array once the node n has left its level, which is cut out if that empties it. */
  method UnqueueInLevel(lv: Levels, best: LevelRef, n: OS.Node) returns (lv': Levels, best': LevelRef)
    requires n.o.price < |lv| && lv[n.o.price].price == n.o.price && lv[n.o.price].head != OS.NULL
    requires InRange(lv, lv[n.o.price].next) && InRange(lv, lv[n.o.price].prev)
    ensures lv' == ShrinkLevel(lv, n) && best' == BestAfter(lv, n, best)
  {
    var level := lv[n.o.price];
    if n.prev == OS.NULL {
      level := level.(head := n.next);
    }
    if n.next == OS.NULL {
      level := level.(tail := n.prev);
    }
    lv', best' := lv[n.o.price := level], best;
    if level.head == OS.NULL {
      lv', best' := RemovePriceLevel(lv', best, n.o.price);
      assert lv' == Cut(lv, n.o.price);
    }
  }

  method RemovePriceLevel(lv: Levels, best: LevelRef, p: Price) returns (lv': Levels, best': LevelRef)
    requires p < |lv| && InRange(lv, lv[p].next) && InRange(lv, lv[p].prev)
    ensures lv' == Cut(lv, p) && best' == if best == p then lv[p].next else best
  {
    lv', best' := lv, best;
    if lv[p].next != NIL {
      lv' := lv'[lv[p].next := lv'[lv[p].next].(prev := lv[p].prev)];
    }
    if lv[p].prev != NIL {
      lv' := lv'[lv[p].prev := lv'[lv[p].prev].(next := lv[p].next)];
    }
    if best == p {
      best' := lv[p].next;
    }
    lv' := lv'[p := Vacant(lv[p].price)];
  }

  /** The level array once r is the tail of level p, which is threaded in first if it was vacant. */
  method QueueInLevel(side: Side, lv: Levels, best: LevelRef, p: Price, r: OS.Ref,
                      ghost pool: OS.Pool, ghost l: seq<OS.Ref>, ghost k: nat)
    returns (lv': Levels, best': LevelRef)
    requires OS.Chain(side, pool, l) && LevelArray(pool, l, lv, best) && p < |lv| && r != OS.NULL
    requires OS.Slot(side, pool, l, k, p, TailOf(lv, p)) && (lv[p].head == OS.NULL ==> lv[p] == Vacant(p))
    requires lv[p].head == OS.NULL <==> k == 0 || OS.PriceAt(pool, l, k - 1) != p
    ensures Grown(pool, l, k, r, p, lv, lv') && best' == GrownBest(k, p, best)
  {
    hide OS.Chain;
    lv', best' := lv, best;
    if lv[p].head == OS.NULL {
      lv', best' := InsertPriceLevel(side, lv, best, p, pool, l, k);
      lv' := lv'[p := lv'[p].(head := r, tail := r)];
    } else {
      lv' := lv'[p := lv'[p].(tail := r)];
      SlotRange(side, pool, l, lv, best, k);
    }
  }

  lemma SlotRange(side: Side, pool: OS.Pool, l: seq<OS.Ref>, lv: Levels, best: LevelRef, k: nat)
    requires OS.Chain(side, pool, l) && LevelArray(pool, l, lv, best) && 0 < k <= |l|
    ensures InRange(lv, PriceBefore(pool, l, k)) && InRange(lv, PriceFrom(pool, l, k))
  {
    LevelLinks(side, pool, l, lv, best, k - 1);
    if k < |l| {
      LevelLinks(side, pool, l, lv, best, k);
    }
  }

  lemma SideFacts(c: Rep, side: Side)
    requires RepValid(c)
    ensures OS.SideValid(side, c.s.pool, c.s.L(side))
    ensures LevelArray(c.s.pool, c.s.L(side), c.LevelsOf(side), c.Best(side))
  {
  }
}
