/** The sorted map of price levels of one side, tied to that side's priority list. */
module MapLevels {
  import opened Types
  import opened PriceTime
  import opened OrderStore

  datatype Level = Level(head: Ref, tail: Ref)

  type Levels = map<Price, Level>

  ghost predicate LevelAt(pool: Pool, l: seq<Ref>, lv: Levels, i: nat)
    requires Live(pool, l) && i < |l|
  {
    var p := PriceAt(pool, l, i);
    && p in lv
    && (Opens(pool, l, i) ==> lv[p].head == l[i])
    && (Closes(pool, l, i) ==> lv[p].tail == l[i])
  }

  /** The map holds exactly the non-empty levels, each with the right ends. */
  ghost predicate LevelMap(pool: Pool, l: seq<Ref>, lv: Levels)
    requires Live(pool, l)
  {
    && (forall i :: 0 <= i < |l| ==> LevelAt(pool, l, lv, i))
    && (forall p :: p in lv ==> Occupied(pool, l, p))
  }

  /** std::map::begin under the side's comparator. */
  function Begin(side: Side, lv: Levels): (p: Price)
    requires lv != map[]
    ensures p in lv && forall q :: q in lv ==> !Better(side, q, p)
  {
    BestKeyExists(side, lv.Keys);
    var p :| p in lv && forall q :: q in lv ==> !Better(side, q, p);
    p
  }

  lemma BestOfTwo(side: Side, keys: set<Price>, x: Price, p: Price)
    requires x in keys && p in keys && forall q :: q in keys && q != x ==> !Better(side, q, p)
    ensures exists p :: p in keys && forall q :: q in keys ==> !Better(side, q, p)
  {
    var best := if Better(side, x, p) then x else p;
    assert forall q :: q in keys ==> !Better(side, q, best);
  }

  lemma {:induction false} BestKeyExists(side: Side, keys: set<Price>)
    requires keys != {}
    ensures exists p :: p in keys && forall q :: q in keys ==> !Better(side, q, p)
    decreases |keys|
  {
    var x :| x in keys;
    var rest := keys - {x};
    if rest != {} {
      BestKeyExists(side, rest);
      var p :| p in rest && forall q :: q in rest ==> !Better(side, q, p);
      assert forall q :: q in keys && q != x ==> q in rest;
      BestOfTwo(side, keys, x, p);
    } else {
      assert forall q :: q in keys && q != x ==> q in rest;
      BestOfTwo(side, keys, x, x);
    }
  }

  /** begin() is the level of the first order in priority order. */
  lemma BeginIsFront(side: Side, pool: Pool, l: seq<Ref>, lv: Levels)
    requires Chain(side, pool, l) && LevelMap(pool, l, lv)
    ensures l == [] <==> lv == map[]
    ensures l != [] ==> Begin(side, lv) == PriceAt(pool, l, 0) && lv[PriceAt(pool, l, 0)].head == l[0]
  {
    if l != [] {
      assert LevelAt(pool, l, lv, 0);
      var p := Begin(side, lv);
      assert Occupied(pool, l, p);
      var i :| 0 <= i < |l| && PriceAt(pool, l, i) == p;
      if i > 0 {
        assert !Better(side, PriceAt(pool, l, i), PriceAt(pool, l, 0));
      }
    } else {
      assert forall p :: p in lv ==> Occupied(pool, l, p);
    }
  }

  /** What unlinking r does to its level: new ends, and erasure once the head is gone. */
  function ShrinkLevel(lv: Levels, pool: Pool, r: Ref): Levels
    requires r in pool && pool[r].o.price in lv
  {
    var n, p := pool[r], pool[r].o.price;
    var head := if n.prev != NULL then lv[p].head else n.next;
    var tail := if n.next != NULL then lv[p].tail else n.prev;
    if head == NULL then lv - {p} else lv[p := Level(head, tail)]
  }

  /** The ends of the level of l[k] once l[k] has left it. */
  ghost predicate Shrunk(pool: Pool, l: seq<Ref>, k: nat, lv: Levels, lv': Levels)
    requires Live(pool, l) && k < |l|
  {
    var p := PriceAt(pool, l, k);
    && (forall q :: q != p ==> (q in lv' <==> q in lv) && (q in lv ==> lv'[q] == lv[q]))
    && p in lv
    && (p in lv' <==> !Opens(pool, l, k) || !Closes(pool, l, k))
    && (p in lv' ==>
          && lv'[p].head == (if Opens(pool, l, k) then l[k + 1] else lv[p].head)
          && lv'[p].tail == (if Closes(pool, l, k) then l[k - 1] else lv[p].tail))
  }

  lemma ShrinkIsShrunk(side: Side, pool: Pool, l: seq<Ref>, lv: Levels, k: nat)
    requires Chain(side, pool, l) && LevelMap(pool, l, lv) && k < |l|
    ensures PriceAt(pool, l, k) in lv
    ensures Shrunk(pool, l, k, lv, ShrinkLevel(lv, pool, l[k]))
  {
    NeighboursLive(side, pool, l, k);
    HeadLive(side, pool, l, lv, k);
  }

  lemma ShrinkAt(side: Side, pool: Pool, l: seq<Ref>, lv: Levels, k: nat, pool': Pool, l': seq<Ref>, lv': Levels,
                 i: nat)
    requires Drops(pool, l, k, pool', l') && PriceSorted(side, pool, l) && i < |l'|
    requires LevelMap(pool, l, lv) && Shrunk(pool, l, k, lv, lv')
    ensures LevelAt(pool', l', lv', i)
  {
    var j := Source(k, i);
    assert PriceAt(pool', l', i) == PriceAt(pool, l, j);
    DropOpens(side, pool, l, k, pool', l', i);
    DropCloses(side, pool, l, k, pool', l', i);
    assert LevelAt(pool, l, lv, j);
    if PriceAt(pool, l, j) == PriceAt(pool, l, k) {
      SegmentConvex(side, pool, l, if j < k then j else k, if j < k then k else j);
    }
  }

  lemma ShrinkOccupied(pool: Pool, l: seq<Ref>, lv: Levels, k: nat, pool': Pool, l': seq<Ref>, lv': Levels, p: Price)
    requires Drops(pool, l, k, pool', l') && p in lv'
    requires LevelMap(pool, l, lv) && Shrunk(pool, l, k, lv, lv')
    ensures Occupied(pool', l', p)
  {
    assert Occupied(pool, l, p);
    var j :| 0 <= j < |l| && PriceAt(pool, l, j) == p;
    if j == k {
      // the level survives, so a neighbour shares its price
      j := if Opens(pool, l, k) then k + 1 else k - 1;
    }
    var i := if j < k then j else j - 1;
    assert Source(k, i) == j;
    assert PriceAt(pool', l', i) == p;
  }

  lemma ShrinkMap(side: Side, pool: Pool, l: seq<Ref>, lv: Levels, k: nat)
    requires Chain(side, pool, l) && LevelMap(pool, l, lv) && k < |l|
    ensures PriceAt(pool, l, k) in lv && LinksLive(pool, l[k])
    ensures Live(Unlink(pool, l[k]), Remove(l, k))
    ensures LevelMap(Unlink(pool, l[k]), Remove(l, k), ShrinkLevel(lv, pool, l[k]))
  {
    ShrinkIsShrunk(side, pool, l, lv, k);
    NeighboursLive(side, pool, l, k);
    UnlinkDrops(pool, l, k);
    var pool', l', lv' := Unlink(pool, l[k]), Remove(l, k), ShrinkLevel(lv, pool, l[k]);
    forall i | 0 <= i < |l'|
      ensures LevelAt(pool', l', lv', i)
    {
      ShrinkAt(side, pool, l, lv, k, pool', l', lv', i);
    }
    forall p | p in lv'
      ensures Occupied(pool', l', p)
    {
      ShrinkOccupied(pool, l, lv, k, pool', l', lv', p);
    }
  }

  /** An update that keeps every price of this side keeps its level map. */
  lemma MapFrame(pool: Pool, pool': Pool, l: seq<Ref>, lv: Levels)
    requires Live(pool, l) && Live(pool', l) && LevelMap(pool, l, lv)
    requires forall i :: 0 <= i < |l| ==> pool'[l[i]].o.price == pool[l[i]].o.price
    ensures LevelMap(pool', l, lv)
  {
    forall i | 0 <= i < |l|
      ensures LevelAt(pool', l, lv, i)
    {
      assert LevelAt(pool, l, lv, i);
    }
    forall p | p in lv
      ensures Occupied(pool', l, p)
    {
      assert Occupied(pool, l, p);
      var i :| 0 <= i < |l| && PriceAt(pool, l, i) == p;
      assert PriceAt(pool', l, i) == p;
    }
  }

  lemma MapUntouched(pool: Pool, pool': Pool, l: seq<Ref>, lv: Levels)
    requires Live(pool, l) && Live(pool', l) && LevelMap(pool, l, lv)
    requires Values(pool', l) == Values(pool, l)
    ensures LevelMap(pool', l, lv)
  {
    forall i | 0 <= i < |l|
      ensures pool'[l[i]].o.price == pool[l[i]].o.price
    {
      assert Values(pool', l)[i] == Values(pool, l)[i];
    }
    MapFrame(pool, pool', l, lv);
  }

  function TailOf(lv: Levels, p: Price): Ref {
    if p in lv then lv[p].tail else NULL
  }

  /** The level's tail is where the priority list says the newcomer must queue. */
  lemma TailIsSlot(side: Side, pool: Pool, l: seq<Ref>, lv: Levels, p: Price) returns (k: nat)
    requires Chain(side, pool, l) && LevelMap(pool, l, lv)
    ensures k == InsertPos(side, Values(pool, l), p) <= |l|
    ensures Slot(side, pool, l, k, p, TailOf(lv, p))
    ensures p in lv ==> lv[p].head != NULL && lv[p].tail != NULL && lv[p].tail in pool
  {
    k := SlotExists(side, pool, l, p);
    if p in lv {
      assert Occupied(pool, l, p);
      var j :| 0 <= j < |l| && PriceAt(pool, l, j) == p;
      if j < k - 1 {
        assert !Better(side, PriceAt(pool, l, k - 1), PriceAt(pool, l, j));
      }
      assert LevelAt(pool, l, lv, k - 1);
      HeadLive(side, pool, l, lv, j);
    } else if 0 < k {
      assert LevelAt(pool, l, lv, k - 1);
    }
  }

  lemma {:induction false} HeadLive(side: Side, pool: Pool, l: seq<Ref>, lv: Levels, j: nat)
    requires Chain(side, pool, l) && LevelMap(pool, l, lv) && j < |l|
    ensures PriceAt(pool, l, j) in lv && lv[PriceAt(pool, l, j)].head != NULL
    decreases j
  {
    assert LevelAt(pool, l, lv, j);
    if !Opens(pool, l, j) {
      HeadLive(side, pool, l, lv, j - 1);
    }
  }

  function GrowLevel(lv: Levels, p: Price, r: Ref): Levels {
    lv[p := Level(if p in lv then lv[p].head else r, r)]
  }

  lemma GrowAt(side: Side, pool: Pool, l: seq<Ref>, lv: Levels, k: nat, r: Ref, price: Price,
               pool': Pool, l': seq<Ref>, i: nat)
    requires Gains(pool, l, k, r, price, pool', l') && PriceSorted(side, pool, l) && LevelMap(pool, l, lv)
    requires Slot(side, pool, l, k, price, TailOf(lv, price)) && i < |l'|
    requires price in lv ==> lv[price].tail != NULL
    ensures LevelAt(pool', l', GrowLevel(lv, price, r), i)
  {
    GainOpens(side, pool, l, k, r, price, TailOf(lv, price), pool', l', i);
    GainCloses(side, pool, l, k, r, price, TailOf(lv, price), pool', l', i);
    SlotSplits(side, pool, l, k, price, TailOf(lv, price));
    if i != k {
      var j := if i < k then i else i - 1;
      assert LevelAt(pool, l, lv, j);
      if j < k - 1 && PriceAt(pool, l, j) == price {
        assert !Better(side, PriceAt(pool, l, k - 1), PriceAt(pool, l, j));
        SegmentConvex(side, pool, l, j, k - 1);
      }
      assert k <= j ==> Better(side, price, PriceAt(pool, l, j));
    }
  }

  lemma GrowOccupied(pool: Pool, l: seq<Ref>, lv: Levels, k: nat, r: Ref, price: Price,
                     pool': Pool, l': seq<Ref>, p: Price)
    requires Gains(pool, l, k, r, price, pool', l') && LevelMap(pool, l, lv)
    requires p in GrowLevel(lv, price, r)
    ensures Occupied(pool', l', p)
  {
    if p == price {
      assert PriceAt(pool', l', k) == p;
    } else {
      assert Occupied(pool, l, p);
      var j :| 0 <= j < |l| && PriceAt(pool, l, j) == p;
      assert PriceAt(pool', l', if j < k then j else j + 1) == p;
    }
  }

  lemma GrowMap(side: Side, pool: Pool, l: seq<Ref>, lv: Levels, k: nat, r: Ref, o: Order)
    requires Chain(side, pool, l) && LevelMap(pool, l, lv) && r !in pool
    requires Slot(side, pool, l, k, o.price, TailOf(lv, o.price))
    requires o.price in lv ==> lv[o.price].tail != NULL
    ensures Live(Append(pool, r, o, TailOf(lv, o.price)), InsertAt(l, k, r))
    ensures LevelMap(Append(pool, r, o, TailOf(lv, o.price)), InsertAt(l, k, r), GrowLevel(lv, o.price, r))
  {
    var pool', l' := Append(pool, r, o, TailOf(lv, o.price)), InsertAt(l, k, r);
    AppendGains(pool, l, k, r, o, TailOf(lv, o.price));
    forall i | 0 <= i < |l'|
      ensures LevelAt(pool', l', GrowLevel(lv, o.price, r), i)
    {
      GrowAt(side, pool, l, lv, k, r, o.price, pool', l', i);
    }
    forall p | p in GrowLevel(lv, o.price, r)
      ensures Occupied(pool', l', p)
    {
      GrowOccupied(pool, l, lv, k, r, o.price, pool', l', p);
    }
  }
}
