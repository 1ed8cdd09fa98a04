/** The bitmap form of the book: directly indexed levels, an occupancy bitmap and a cached best price per side. */
module BitmapBook {
  import opened Types
  import opened PriceTime
  import opened Bitmap
  import Bits
  import Greedy
  import ML = MapLevels
  import MB = MapBook
  import OS = OrderStore

  /** One side of the book: the level array, its bitmap and the cached best price. */
  datatype Wing = Wing(levels: seq<ML.Level>, occupied: Words, best: Price)

  const VACANT := ML.Level(OS.NULL, OS.NULL)

  ghost predicate Sized(w: Wing) {
    |w.levels| == MAX_PRICE_LEVELS && |w.occupied| == BITMAP_WORDS
  }

  ghost predicate BestOf(side: Side, ws: Words, best: Price)
    requires |ws| == BITMAP_WORDS
  {
    && (best != INVALID_PRICE ==> best < MAX_PRICE_LEVELS && Marked(ws, best))
    && (forall q :: 0 <= q < MAX_PRICE_LEVELS && Marked(ws, q) ==> best != INVALID_PRICE && !Better(side, q, best))
  }

  /** The set bits are exactly the non-empty levels, and the cached price is the best of them. */
  ghost predicate WingOk(side: Side, w: Wing) {
    && Sized(w)
    && BestOf(side, w.occupied, w.best)
    && (forall p :: 0 <= p < MAX_PRICE_LEVELS ==>
          if Marked(w.occupied, p) then w.levels[p].head != OS.NULL else w.levels[p] == VACANT)
  }

  /** The sorted map of non-empty levels that the array and the bitmap stand for. */
  ghost function View(w: Wing): (lv: ML.Levels)
    requires Sized(w)
    ensures forall p :: p in lv <==> 0 <= p < MAX_PRICE_LEVELS && Marked(w.occupied, p)
    ensures forall p :: p in lv ==> lv[p] == w.levels[p]
  {
    map p | 0 <= p < MAX_PRICE_LEVELS && Marked(w.occupied, p) :: w.levels[p]
  }

  lemma BestIsBegin(side: Side, w: Wing)
    requires WingOk(side, w)
    ensures w.best == INVALID_PRICE <==> View(w) == map[]
    ensures View(w) != map[] ==> w.best == ML.Begin(side, View(w))
  {
  }

  lemma NoMarks(ws: Words)
    requires |ws| == BITMAP_WORDS && forall k :: 0 <= k < |ws| ==> ws[k] == 0
    ensures forall p :: 0 <= p < MAX_PRICE_LEVELS ==> !Marked(ws, p)
  {
    forall p | 0 <= p < MAX_PRICE_LEVELS
      ensures !Marked(ws, p)
    {
      Bits.ZeroBit(p % 64);
    }
  }

  lemma LevelsSized(side: Side, w: Wing)
    requires WingOk(side, w)
    ensures |w.levels| == MAX_PRICE_LEVELS
  {
  }

  lemma LevelHead(side: Side, w: Wing, p: Price)
    requires WingOk(side, w)
    ensures p in View(w) ==> p < |w.levels| && View(w)[p] == w.levels[p]
    ensures p < |w.levels| ==> (w.levels[p].head != OS.NULL <==> p in View(w))
  {
  }

  /** The tail that a newcomer is linked to; an empty level has none. */
  function Tail(w: Wing, p: Price): OS.Ref
    requires p < |w.levels|
  {
    if w.levels[p].head == OS.NULL then OS.NULL else w.levels[p].tail
  }

  lemma TailIs(side: Side, w: Wing, p: Price)
    requires WingOk(side, w) && p < MAX_PRICE_LEVELS
    ensures p < |w.levels| && Tail(w, p) == ML.TailOf(View(w), p)
  {
  }

  // ---------------------------------------------------------------- level maintenance

  method InsertPriceLevel(side: Side, w: Wing, p: Price) returns (w': Wing)
    requires Sized(w) && BestOf(side, w.occupied, w.best) && p < MAX_PRICE_LEVELS
    ensures w'.levels == w.levels && Sized(w') && BestOf(side, w'.occupied, w'.best)
    ensures forall q :: 0 <= q < MAX_PRICE_LEVELS ==> (Marked(w'.occupied, q) <==> q == p || Marked(w.occupied, q))
  {
    hide Marked, SetBit;
    w' := w.(occupied := SetBit(w.occupied, p));
    if w.best == INVALID_PRICE || Better(side, p, w.best) {
      w' := w'.(best := p);
    }
  }

  method RemovePriceLevel(side: Side, w: Wing, p: Price) returns (w': Wing)
    requires Sized(w) && BestOf(side, w.occupied, w.best) && p < MAX_PRICE_LEVELS
    ensures w'.levels == w.levels && Sized(w') && BestOf(side, w'.occupied, w'.best)
    ensures forall q :: 0 <= q < MAX_PRICE_LEVELS ==> (Marked(w'.occupied, q) <==> q != p && Marked(w.occupied, q))
  {
    hide Marked, ClearBit;
    w' := w.(occupied := ClearBit(w.occupied, p));
    if w.best == p {
      var best: Price;
      if side.Buy? {
        best := NextOccupiedDesc(w'.occupied, p);
      } else {
        best := NextOccupiedAsc(w'.occupied, p);
      }
      w' := w'.(best := best);
    }
  }

  /** Queues r at the tail of its level, which gains its bit if it was empty. */
  method QueueInLevel(side: Side, w: Wing, p: Price, r: OS.Ref) returns (w': Wing)
    requires WingOk(side, w) && p < MAX_PRICE_LEVELS && r != OS.NULL
    ensures WingOk(side, w') && View(w') == ML.GrowLevel(View(w), p, r)
  {
    hide Marked;
    var level := w.levels[p];
    w' := w;
    if level.head == OS.NULL {
      w' := InsertPriceLevel(side, w', p);
      level := ML.Level(r, r);
    } else {
      level := level.(tail := r);
    }
    w' := w'.(levels := w'.levels[p := level]);
  }

  /** Takes a node out of its level, which loses its bit once it is empty. */
  method UnqueueInLevel(side: Side, w: Wing, ghost pool: OS.Pool, ghost r: OS.Ref, n: OS.Node) returns (w': Wing)
    requires WingOk(side, w) && r in pool && pool[r] == n && n.o.price in View(w)
    ensures WingOk(side, w') && View(w') == ML.ShrinkLevel(View(w), pool, r)
  {
    hide Marked;
    var p := n.o.price;
    var level := w.levels[p];
    if n.prev == OS.NULL {
      level := level.(head := n.next);
    }
    if n.next == OS.NULL {
      level := level.(tail := n.prev);
    }
    w' := w.(levels := w.levels[p := level]);
    if level.head == OS.NULL {
      w' := RemovePriceLevel(side, w', p);
    }
  }

  // ---------------------------------------------------------------- a silent match

  /** What is left after matching does not depend on the messages that another form of the book would send. */
  lemma {:induction false} SilentMatch(f: Flavor, g: Flavor, opp: seq<Order>, inc: Incoming, left: Quantity,
                                       mid: OrderId, mid': OrderId)
    ensures Match(f, opp, inc, left, mid).rest == Match(g, opp, inc, left, mid').rest
    ensures Match(f, opp, inc, left, mid).left == Match(g, opp, inc, left, mid').left
    decreases |opp|, left
  {
    if !Stops(opp, inc, left) {
      var m := FillFront(f, opp, inc, left, mid);
      SilentMatch(f, g, m.rest, inc, m.left, mid + 1, mid' + 1);
    }
  }

  /** The book once the order with this key, if there is one, is gone. */
  function Without(b: PriceTime.Book, client: ClientId, coid: OrderId): PriceTime.Book {
    if !Present(b, client, coid) then b
    else
      var side := SideOf(b, client, coid);
      b.With(side, Remove(b.Orders(side), Find(b.Orders(side), client, coid)))
  }

  /** A cancel of the whole order, as the other two books define it, when no share count is given. */
  lemma WithoutIsFullCancel(f: Flavor, b: PriceTime.Book, mid: OrderId, req: Request)
    requires req.qty == 0
    ensures CancelStep(f, b, mid, req).book == Without(b, req.client, req.coid)
  {
  }

  predicate OrdersAt(l: seq<Order>, p: Price) {
    exists i :: 0 <= i < |l| && l[i].price == p
  }

  lemma LevelIffOrders(c: MB.Rep, side: Side, p: Price)
    requires MB.RepValid(c)
    ensures p in c.LevelsOf(side) <==> OrdersAt(MB.Abs(c).Orders(side), p)
  {
    hide OS.Indexed, OS.Linked, OS.Distinct, OS.PriceSorted;
    var l, v := c.s.L(side), MB.Abs(c).Orders(side);
    assert forall i :: 0 <= i < |l| ==> v[i].price == OS.PriceAt(c.s.pool, l, i);
    if p in c.LevelsOf(side) {
      assert OS.Occupied(c.s.pool, l, p);
    }
    if OrdersAt(v, p) {
      var i :| 0 <= i < |v| && v[i].price == p;
      assert ML.LevelAt(c.s.pool, l, c.LevelsOf(side), i);
    }
  }

  /**
   A price is marked exactly when an order rests at it, and the cached price is that of the first order
   in priority order: the greatest bid or the least ask.
   */
  lemma OccupancyIsExact(side: Side, w: Wing, c: MB.Rep)
    requires WingOk(side, w) && MB.RepValid(c) && c.LevelsOf(side) == View(w)
    ensures forall p :: 0 <= p < MAX_PRICE_LEVELS ==>
      (Marked(w.occupied, p) <==> OrdersAt(MB.Abs(c).Orders(side), p))
    ensures var l := MB.Abs(c).Orders(side);
            if l == [] then w.best == INVALID_PRICE else w.best == l[0].price && NoneBetter(side, l, w.best)
  {
    hide Marked, MB.RepValid, MB.Abs, OrdersAt;
    MB.Front(c, side);
    BestIsBegin(side, w);
    if MB.Abs(c).Orders(side) != [] {
      MB.FrontIsBest(c, side);
    }
    forall p | 0 <= p < MAX_PRICE_LEVELS
      ensures Marked(w.occupied, p) <==> OrdersAt(MB.Abs(c).Orders(side), p)
    {
      LevelIffOrders(c, side, p);
    }
  }

  // ---------------------------------------------------------------- the class

  class Book {
    var pool: OS.Pool
    var index: OS.Index
    var bids: Wing
    var asks: Wing
    var nextMarketOrderId: OrderId
    ghost var bidL: seq<OS.Ref>
    ghost var askL: seq<OS.Ref>

    function WingOf(side: Side): Wing
      reads this
    {
      if side.Buy? then bids else asks
    }

    ghost predicate WingsOk()
      reads this
    {
      WingOk(Buy, bids) && WingOk(Sell, asks)
    }

    /** The map book that this one simulates. */
    ghost function State(): MB.Rep
      requires WingsOk()
      reads this
    {
      MB.Rep(OS.Store(pool, index, bidL, askL), View(bids), View(asks), nextMarketOrderId)
    }

    ghost predicate Valid()
      reads this
    {
      WingsOk() && MB.RepValid(State())
    }

    ghost function Contents(): PriceTime.Book
      requires Valid()
      reads this
    {
      MB.Abs(State())
    }

    constructor ()
      ensures Valid() && Contents() == EMPTY
    {
      var levels, words := seq(MAX_PRICE_LEVELS, _ => VACANT), seq(BITMAP_WORDS, _ => 0 as bv64);
      NoMarks(words);
      pool, index, nextMarketOrderId := map[], map[], 1;
      bids, asks := Wing(levels, words, INVALID_PRICE), Wing(levels, words, INVALID_PRICE);
      bidL, askL := [], [];
    }

    method SetWing(side: Side, w: Wing)
      modifies this`bids, this`asks
      ensures WingOf(side) == w && WingOf(side.Opposite()) == old(WingOf(side.Opposite()))
    {
      if side.Buy? {
        bids := w;
      } else {
        asks := w;
      }
    }

    method Insert(o: Order)
      requires Valid() && !Present(Contents(), o.client, o.coid) && o.price < MAX_PRICE_LEVELS
      modifies this`pool, this`index, this`bids, this`asks, this`bidL, this`askL
      ensures Valid()
      ensures Contents() == old(Contents()).With(o.side, PriceTime.Insert(old(Contents()).Orders(o.side), o))
    {
      hide OS.Valid, ML.LevelMap, OS.Slot, OS.Append, OS.PutKey, WingOk, ML.GrowLevel, View;
      ghost var c := State();
      ghost var k := MB.PrepareInsert(c, o);
      var r := Enqueue(o);
      if o.side.Buy? {
        bidL := OS.InsertAt(bidL, k, r);
      } else {
        askL := OS.InsertAt(askL, k, r);
      }
      MB.InsertValid(c, k, r, o);
      assert State() == MB.Inserted(c, k, r, o);
    }

    /** Allocates, queues at the level's tail and indexes: the pointer work of insert. */
    method Enqueue(o: Order) returns (r: OS.Ref)
      requires WingsOk() && MB.TailReady(State(), o.side, o.price) && o.price < MAX_PRICE_LEVELS
      modifies this`pool, this`index, this`bids, this`asks
      ensures WingsOk() && r != OS.NULL && r !in old(pool)
      ensures pool == OS.Append(old(pool), r, o, ML.TailOf(View(old(WingOf(o.side))), o.price))
      ensures index == OS.PutKey(old(index), o.client, o.coid, r)
      ensures View(WingOf(o.side)) == ML.GrowLevel(View(old(WingOf(o.side))), o.price, r)
      ensures WingOf(o.side.Opposite()) == old(WingOf(o.side.Opposite()))
    {
      hide OS.Append, OS.PutKey, WingOk, ML.GrowLevel, View;
      TailIs(o.side, WingOf(o.side), o.price);
      r, pool := OS.Link(pool, o, Tail(WingOf(o.side), o.price));
      var w := QueueInLevel(o.side, WingOf(o.side), o.price, r);
      SetWing(o.side, w);
      index := OS.PutKey(index, o.client, o.coid, r);
    }

    method Delete(r: OS.Ref, ghost side: Side, ghost k: nat)
      requires Valid() && k < |State().s.L(side)| && r == State().s.L(side)[k]
      modifies this`pool, this`index, this`bids, this`asks, this`bidL, this`askL
      ensures Valid()
      ensures Contents() == old(Contents()).With(side, Remove(old(Contents()).Orders(side), k))
    {
      hide OS.Valid, ML.LevelMap, WingOk, OS.EraseKey, OS.Unlink, ML.ShrinkLevel, View;
      ghost var c := State();
      MB.RemoveValid(c, side, k);
      Dequeue(r);
      if side.Buy? {
        bidL := Remove(bidL, k);
      } else {
        askL := Remove(askL, k);
      }
      assert State() == MB.Removed(c, side, k);
    }

    /** Takes the order out of its level, unindexes and frees it: the pointer work of remove. */
    method Dequeue(r: OS.Ref)
      requires WingsOk() && r in pool && OS.LinksLive(pool, r) && pool[r].o.client in index
      requires pool[r].o.price in View(WingOf(pool[r].o.side))
      modifies this`pool, this`index, this`bids, this`asks
      ensures WingsOk() && pool == OS.Unlink(old(pool), r)
      ensures index == OS.EraseKey(old(index), old(pool)[r].o.client, old(pool)[r].o.coid)
      ensures var side := old(pool)[r].o.side;
              && View(WingOf(side)) == ML.ShrinkLevel(View(old(WingOf(pool[r].o.side))), old(pool), r)
              && WingOf(side.Opposite()) == old(WingOf(pool[r].o.side.Opposite()))
    {
      hide WingOk, OS.EraseKey, OS.Unlink, ML.ShrinkLevel, View;
      var n := pool[r];
      var w := UnqueueInLevel(n.o.side, WingOf(n.o.side), pool, r, n);
      SetWing(n.o.side, w);
      index := OS.EraseKey(index, n.o.client, n.o.coid);
      pool := OS.Free(pool, r);
    }

    /** Writes the remaining quantity of the order at position k of its side. */
    method SetRemaining(r: OS.Ref, q: Quantity, ghost side: Side, ghost k: nat)
      requires Valid() && k < |State().s.L(side)| && r == State().s.L(side)[k] && r in pool
      modifies this`pool
      ensures Valid() && r in pool && pool[r].o == old(pool)[r].o.(remaining := q)
      ensures State().s.L(side) == old(State().s.L(side))
      ensures k < |old(Contents()).Orders(side)| && old(Contents()).Orders(side)[k] == old(pool)[r].o
      ensures Contents() == old(Contents()).With(side, old(Contents()).Orders(side)[k := pool[r].o])
    {
      hide OS.Valid, ML.LevelMap, WingOk, View;
      ghost var c := State();
      MB.ResizeValid(c, side, k, q);
      pool := OS.SetRemaining(pool, r, q);
      assert State() == MB.Resized(c, side, k, q);
    }

    /** One turn of the inner matching loop: fill against the head of the best level. */
    method FillHead(ghost inc: Incoming, opp: Side, levelPrice: Price, left: Quantity, ghost mid: OrderId)
      returns (left': Quantity)
      requires Valid() && Contents().Orders(opp) != [] && opp == inc.side.Opposite()
      requires levelPrice == Contents().Orders(opp)[0].price
      modifies this`pool, this`index, this`bids, this`asks, this`bidL, this`askL
      ensures Valid()
      ensures var m := FillFront(MapForm, old(Contents()).Orders(opp), inc, left, mid);
              Contents() == old(Contents()).With(opp, m.rest) && left' == m.left
    {
      hide MB.RepValid, MB.Abs, WingOk, View;
      MB.Front(State(), opp);
      LevelHead(opp, WingOf(opp), levelPrice);
      var r := WingOf(opp).levels[levelPrice].head;
      var fill := Min(left, pool[r].o.remaining);
      left' := left - fill;
      SetRemaining(r, pool[r].o.remaining - fill, opp, 0);
      if pool[r].o.remaining == 0 {
        Delete(r, opp, 0);
      }
    }

    /** The inner loop: fill against one level until it is empty or nothing is left to fill. */
    method FillLevel(inc: Incoming, opp: Side, levelPrice: Price, left: Quantity, ghost total: MatchResult,
                     ghost done: seq<Output>, ghost mid: OrderId)
      returns (left': Quantity, ghost done': seq<Output>, ghost mid': OrderId)
      requires Valid() && opp == inc.side.Opposite() && left > 0
      requires Contents().Orders(opp) != [] && Contents().Orders(opp)[0].price == levelPrice
      requires Crosses(inc.side, inc.price, levelPrice)
      requires Matching(total, done, MapForm, Contents().Orders(opp), inc, left, mid)
      modifies this`pool, this`index, this`bids, this`asks, this`bidL, this`askL
      ensures Valid() && Contents() == old(Contents()).With(opp, Contents().Orders(opp))
      ensures Matching(total, done', MapForm, Contents().Orders(opp), inc, left', mid')
      ensures var v, v' := old(Contents()).Orders(opp), Contents().Orders(opp);
              |v'| < |v| || (|v'| == |v| && left' < left)
    {
      hide MB.RepValid, MB.Abs, FillFront, WingOk, View, Matching;
      left', done', mid' := left, done, mid;
      MB.Front(State(), opp);
      MB.FrontIsBest(State(), opp);
      LevelHead(opp, WingOf(opp), levelPrice);
      MB.FrontOrGone(State(), opp, levelPrice);
      ghost var n := |Contents().Orders(opp)|;
      while WingOf(opp).levels[levelPrice].head != OS.NULL && left' > 0
        invariant Valid() && levelPrice < |WingOf(opp).levels|
        invariant Contents() == old(Contents()).With(opp, Contents().Orders(opp))
        invariant Matching(total, done', MapForm, Contents().Orders(opp), inc, left', mid')
        invariant NoneBetter(opp, Contents().Orders(opp), levelPrice)
        invariant
          var v := Contents().Orders(opp);
          || |v| < n || (|v| == n && left' < left)
          || (|v| == n && left' == left && WingOf(opp).levels[levelPrice].head != OS.NULL)
        decreases |Contents().Orders(opp)|, left'
      {
        LevelHead(opp, WingOf(opp), levelPrice);
        MB.FrontOrGone(State(), opp, levelPrice);
        ghost var v := Contents().Orders(opp);
        ghost var m := FillFront(MapForm, v, inc, left', mid');
        MatchingStep(total, done', MapForm, v, inc, left', mid', levelPrice);
        left' := FillHead(inc, opp, levelPrice, left', mid');
        done', mid' := done' + m.outs, m.mid;
        LevelsSized(opp, WingOf(opp));
      }
    }

    method MatchIncoming(inc: Incoming) returns (left: Quantity)
      requires Valid()
      modifies this`pool, this`index, this`bids, this`asks, this`bidL, this`askL
      ensures Valid()
      ensures var opp := inc.side.Opposite();
              var m := Match(MapForm, old(Contents()).Orders(opp), inc, inc.qty, 0);
              Contents() == old(Contents()).With(opp, m.rest) && left == m.left
    {
      hide MB.RepValid, MB.Abs, FillFront, WingOk, View, Match;
      var opp := inc.side.Opposite();
      left := inc.qty;
      ghost var mid: OrderId, done: seq<Output> := 0, [];
      ghost var total := Match(MapForm, Contents().Orders(opp), inc, left, mid);
      assert Prepend([], total) == total;
      var levelPrice := WingOf(opp).best;
      while levelPrice != INVALID_PRICE && left > 0
        invariant Valid() && levelPrice == WingOf(opp).best
        invariant Contents() == old(Contents()).With(opp, Contents().Orders(opp))
        invariant Matching(total, done, MapForm, Contents().Orders(opp), inc, left, mid)
        decreases |Contents().Orders(opp)|, left
      {
        MB.Front(State(), opp);
        BestIsBegin(opp, WingOf(opp));
        if !Crosses(inc.side, inc.price, levelPrice) {
          break;
        }
        left, done, mid := FillLevel(inc, opp, levelPrice, left, total, done, mid);
        levelPrice := WingOf(opp).best;
      }
      MB.Front(State(), opp);
      BestIsBegin(opp, WingOf(opp));
      MatchingEnds(total, done, MapForm, Contents().Orders(opp), inc, left, mid);
    }

    method AddOrder(req: Request)
      requires Valid() && !Present(Contents(), req.client, req.coid)
      requires Greedy.Indexable(Contents(), req.(action := NewOrder))
      modifies this
      ensures Valid()
      ensures forall f, mid :: Contents() == AddStep(f, old(Contents()), mid, req).book
    {
      hide MB.RepValid, MB.Abs, Match, Greedy.Liquidity;
      ghost var b := Contents();
      var moid := TakeOrderId();
      var inc := Incoming(req.ticker, req.client, req.coid, moid, req.otype, req.price, req.qty, req.side, req.token);
      ghost var opp := b.Orders(inc.side.Opposite());
      forall f, mid
        ensures Match(f, opp, inc, inc.qty, mid).rest == Match(MapForm, opp, inc, inc.qty, 0).rest
        ensures Match(f, opp, inc, inc.qty, mid).left == Match(MapForm, opp, inc, inc.qty, 0).left
      {
        SilentMatch(f, MapForm, opp, inc, inc.qty, mid, 0);
      }
      AbsentAfterMatch(MapForm, Contents(), inc, 0, req.client, req.coid);
      Greedy.MatchTotal(MapForm, opp, inc, inc.qty, 0);
      var left := MatchIncoming(inc);
      if left > 0 && req.otype.GoodTillCancel? {
        Insert(Resting(inc, left));
      }
    }

    method TakeOrderId() returns (moid: OrderId)
      requires Valid()
      modifies this`nextMarketOrderId
      ensures Valid() && moid == old(Contents()).nextId && Contents() == old(Contents()).(nextId := moid + 1)
    {
      hide OS.Valid, ML.LevelMap, WingOk;
      moid := nextMarketOrderId;
      nextMarketOrderId := nextMarketOrderId + 1;
    }

    method CancelOrder(client: ClientId, coid: OrderId)
      requires Valid()
      modifies this`pool, this`index, this`bids, this`asks, this`bidL, this`askL
      ensures Valid() && Contents() == Without(old(Contents()), client, coid)
    {
      hide MB.RepValid, MB.Abs, Find;
      ghost var k := MB.Lookup(State(), client, coid);
      if client !in index {
        return;
      }
      if coid !in index[client] {
        return;
      }
      var r := index[client][coid];
      Delete(r, pool[r].o.side, k);
    }
  }
}
