/**
 The dense array of price levels of one side. Occupied levels are threaded into a doubly linked list
 that starts at a cached best level; here that list is tied to the side's priority list.
 */
module VectorLevels {
  import opened Types
  import opened PriceTime
  import opened OrderStore

  /** A level pointer: an array index, or NIL. */
  type LevelRef = int

  const NIL: LevelRef := -1

  datatype Level = Level(price: Price, head: Ref, tail: Ref, next: LevelRef, prev: LevelRef)

  type Levels = seq<Level>

  function Vacant(p: Price): Level {
    Level(p, NULL, NULL, NIL, NIL)
  }

  /** The price just before, or just after, position i in priority order. */
  ghost function PriceBefore(pool: Pool, l: seq<Ref>, i: nat): LevelRef
    requires Live(pool, l) && i <= |l|
  {
    if i == 0 then NIL else PriceAt(pool, l, i - 1)
  }

  ghost function PriceFrom(pool: Pool, l: seq<Ref>, i: nat): LevelRef
    requires Live(pool, l) && i <= |l|
  {
    if i == |l| then NIL else PriceAt(pool, l, i)
  }

  ghost predicate LevelAt(pool: Pool, l: seq<Ref>, lv: Levels, i: nat)
    requires Live(pool, l) && i < |l|
  {
    var p := PriceAt(pool, l, i);
    && p < |lv|
    && (Opens(pool, l, i) ==> lv[p].head == l[i] && lv[p].prev == PriceBefore(pool, l, i))
    && (Closes(pool, l, i) ==> lv[p].tail == l[i] && lv[p].next == PriceFrom(pool, l, i + 1))
  }

  /** Occupied levels carry their queue ends and their neighbouring levels; all others are vacant. */
  ghost predicate LevelArray(pool: Pool, l: seq<Ref>, lv: Levels, best: LevelRef)
    requires Live(pool, l)
  {
    && |lv| == MAX_PRICE_LEVELS
    && (forall i :: 0 <= i < |l| ==> LevelAt(pool, l, lv, i))
    && (forall p :: 0 <= p < |lv| ==> lv[p].price == p && (Occupied(pool, l, p) || lv[p] == Vacant(p)))
    && best == PriceFrom(pool, l, 0)
  }

  // ---------------------------------------------------------------- facts about occupied levels

  lemma {:induction false} HeadLive(side: Side, pool: Pool, l: seq<Ref>, lv: Levels, j: nat)
    requires Chain(side, pool, l) && j < |l| && forall i :: 0 <= i < |l| ==> LevelAt(pool, l, lv, i)
    ensures PriceAt(pool, l, j) < |lv| && lv[PriceAt(pool, l, j)].head != NULL
    decreases j
  {
    assert LevelAt(pool, l, lv, j);
    if !Opens(pool, l, j) {
      HeadLive(side, pool, l, lv, j - 1);
    }
  }

  lemma HeadTellsOccupied(side: Side, pool: Pool, l: seq<Ref>, lv: Levels, best: LevelRef, p: Price)
    requires Chain(side, pool, l) && LevelArray(pool, l, lv, best) && p < |lv|
    ensures lv[p].head != NULL <==> Occupied(pool, l, p)
  {
    if Occupied(pool, l, p) {
      var j :| 0 <= j < |l| && PriceAt(pool, l, j) == p;
      HeadLive(side, pool, l, lv, j);
    }
  }

  // ---------------------------------------------------------------- the list of occupied levels

  predicate InRange(lv: Levels, x: LevelRef) {
    x == NIL || 0 <= x < |lv|
  }

  function SetNextLevel(lv: Levels, x: LevelRef, next: LevelRef): Levels
    requires InRange(lv, x)
  {
    if x == NIL then lv else lv[x := lv[x].(next := next)]
  }

  function SetPrevLevel(lv: Levels, x: LevelRef, prev: LevelRef): Levels
    requires InRange(lv, x)
  {
    if x == NIL then lv else lv[x := lv[x].(prev := prev)]
  }

  /** Level p threaded in between levels a and b. */
  function Joined(lv: Levels, p: Price, a: LevelRef, b: LevelRef): Levels
    requires p < |lv| && InRange(lv, a) && InRange(lv, b)
  {
    SetPrevLevel(SetNextLevel(lv, a, p), b, p)[p := lv[p].(next := b, prev := a)]
  }

  /** Level p cut out and vacated. */
  function Cut(lv: Levels, p: Price): Levels
    requires p < |lv| && InRange(lv, lv[p].next) && InRange(lv, lv[p].prev)
  {
    SetNextLevel(SetPrevLevel(lv, lv[p].next, lv[p].prev), lv[p].prev, lv[p].next)[p := Vacant(lv[p].price)]
  }

  // ---------------------------------------------------------------- an order joins

  /** lv' is lv after r queued at position k. */
  ghost predicate Grown(pool: Pool, l: seq<Ref>, k: nat, r: Ref, p: Price, lv: Levels, lv': Levels)
    requires Live(pool, l) && k <= |l|
  {
    var a, b := PriceBefore(pool, l, k), PriceFrom(pool, l, k);
    && p < |lv| == |lv'| && InRange(lv, a) && InRange(lv, b)
    && (if a == p then lv' == lv[p := lv[p].(tail := r)]
        else lv' == Joined(lv, p, a, b)[p := Level(lv[p].price, r, r, b, a)])
  }

  /** The same, read off one level at a time. */
  lemma GrownLevel(pool: Pool, l: seq<Ref>, k: nat, r: Ref, p: Price, lv: Levels, lv': Levels, q: Price)
    requires Live(pool, l) && k <= |l| && Grown(pool, l, k, r, p, lv, lv') && q < |lv|
    ensures |lv'| == |lv|
    ensures var a, b := PriceBefore(pool, l, k), PriceFrom(pool, l, k);
            if a == p then lv'[q] == if q == p then lv[p].(tail := r) else lv[q]
            else if q == p then lv'[q] == Level(lv[p].price, r, r, b, a)
            else lv'[q] == lv[q].(next := if q == a then p else lv[q].next, prev := if q == b then p else lv[q].prev)
  {
  }

  lemma GrowAt(side: Side, pool: Pool, l: seq<Ref>, lv: Levels, k: nat, r: Ref, p: Price, tail: Ref,
               pool': Pool, l': seq<Ref>, lv': Levels, i: nat)
    requires Gains(pool, l, k, r, p, pool', l') && PriceSorted(side, pool, l) && i < |l'|
    requires Slot(side, pool, l, k, p, tail)
    requires forall x :: 0 <= x < |l| ==> LevelAt(pool, l, lv, x)
    requires Grown(pool, l, k, r, p, lv, lv') && p < |lv|
    ensures LevelAt(pool', l', lv', i)
  {
    hide Grown;
    GainOpens(side, pool, l, k, r, p, tail, pool', l', i);
    GainCloses(side, pool, l, k, r, p, tail, pool', l', i);
    SlotSplits(side, pool, l, k, p, tail);
    if i == k {
      GrownLevel(pool, l, k, r, p, lv, lv', p);
      assert k > 0 ==> LevelAt(pool, l, lv, k - 1);
    } else {
      var j := if i < k then i else i - 1;
      assert LevelAt(pool, l, lv, j);
      GrownLevel(pool, l, k, r, p, lv, lv', PriceAt(pool, l, j));
      GrowNeighbours(side, pool, l, k, p, tail, j);
    }
  }

  /** Which old positions share a level with the newcomer or with one of its neighbours. */
  lemma GrowNeighbours(side: Side, pool: Pool, l: seq<Ref>, k: nat, p: Price, tail: Ref, j: nat)
    requires Live(pool, l) && PriceSorted(side, pool, l) && Slot(side, pool, l, k, p, tail) && j < |l|
    ensures j < k ==> PriceFrom(pool, l, k) != PriceAt(pool, l, j)
    ensures k <= j ==> PriceBefore(pool, l, k) != PriceAt(pool, l, j) && PriceAt(pool, l, j) != p
    ensures j < k && PriceAt(pool, l, j) == p ==> PriceBefore(pool, l, k) == p
    ensures j + 1 < k && Closes(pool, l, j) ==> PriceBefore(pool, l, k) != PriceAt(pool, l, j)
    ensures k < j && Opens(pool, l, j) ==> PriceFrom(pool, l, k) != PriceAt(pool, l, j)
  {
  }

  ghost function GrownBest(k: nat, p: Price, best: LevelRef): LevelRef {
    if k == 0 then p else best
  }

  lemma GrowArray(side: Side, pool: Pool, l: seq<Ref>, lv: Levels, best: LevelRef, k: nat, r: Ref, o: Order, tail: Ref,
                  lv': Levels)
    requires Chain(side, pool, l) && LevelArray(pool, l, lv, best) && r !in pool
    requires Slot(side, pool, l, k, o.price, tail) && Grown(pool, l, k, r, o.price, lv, lv')
    ensures Live(Append(pool, r, o, tail), InsertAt(l, k, r))
    ensures LevelArray(Append(pool, r, o, tail), InsertAt(l, k, r), lv', GrownBest(k, o.price, best))
  {
    var pool', l' := Append(pool, r, o, tail), InsertAt(l, k, r);
    AppendGains(pool, l, k, r, o, tail);
    forall i | 0 <= i < |l'|
      ensures LevelAt(pool', l', lv', i)
    {
      GrowAt(side, pool, l, lv, k, r, o.price, tail, pool', l', lv', i);
    }
    forall p | 0 <= p < |lv'|
      ensures lv'[p].price == p && (Occupied(pool', l', p) || lv'[p] == Vacant(p))
    {
      GrowVacant(pool, l, lv, best, k, r, o.price, pool', l', lv', p);
    }
  }

  lemma GrowVacant(pool: Pool, l: seq<Ref>, lv: Levels, best: LevelRef, k: nat, r: Ref, price: Price,
                   pool': Pool, l': seq<Ref>, lv': Levels, p: Price)
    requires Gains(pool, l, k, r, price, pool', l') && LevelArray(pool, l, lv, best)
    requires Grown(pool, l, k, r, price, lv, lv') && p < |lv| == |lv'|
    ensures lv'[p].price == p && (Occupied(pool', l', p) || lv'[p] == Vacant(p))
  {
    hide Grown;
    GrownLevel(pool, l, k, r, price, lv, lv', p);
    if p == price {
      assert PriceAt(pool', l', k) == p;
    } else if Occupied(pool, l, p) {
      var j :| 0 <= j < |l| && PriceAt(pool, l, j) == p;
      assert PriceAt(pool', l', if j < k then j else j + 1) == p;
    } else {
      assert k > 0 ==> PriceAt(pool, l, k - 1) != p;
      assert k < |l| ==> PriceAt(pool, l, k) != p;
    }
  }

  // ---------------------------------------------------------------- an order leaves

  /** lv' is lv after l[k] left: its level shrank, or was cut out when l[k] was alone in it. */
  ghost predicate Shrunk(pool: Pool, l: seq<Ref>, k: nat, lv: Levels, lv': Levels)
    requires Live(pool, l) && k < |l|
  {
    var p := PriceAt(pool, l, k);
    && p < |lv| == |lv'| && InRange(lv, lv[p].next) && InRange(lv, lv[p].prev)
    && (if Opens(pool, l, k) && Closes(pool, l, k) then lv' == Cut(lv, p)
        else lv' == lv[p := lv[p].(head := if Opens(pool, l, k) then l[k + 1] else lv[p].head,
                                   tail := if Closes(pool, l, k) then l[k - 1] else lv[p].tail)])
  }

  /** Which other positions share a level with l[k] or with one of its neighbours. */
  lemma ShrinkNeighbours(side: Side, pool: Pool, l: seq<Ref>, k: nat, j: nat)
    requires Live(pool, l) && PriceSorted(side, pool, l) && j < |l| && k < |l| && j != k
    ensures Opens(pool, l, k) && j < k ==> PriceAt(pool, l, j) != PriceAt(pool, l, k)
    ensures Closes(pool, l, k) && k < j ==> PriceAt(pool, l, j) != PriceAt(pool, l, k)
    ensures Opens(pool, l, k) && Closes(pool, l, k) && j < k ==> PriceFrom(pool, l, k + 1) != PriceAt(pool, l, j)
    ensures Opens(pool, l, k) && Closes(pool, l, k) && k < j ==> PriceBefore(pool, l, k) != PriceAt(pool, l, j)
    ensures j + 1 < k && Closes(pool, l, j) ==> PriceBefore(pool, l, k) != PriceAt(pool, l, j)
    ensures k + 1 < j && Opens(pool, l, j) ==> PriceFrom(pool, l, k + 1) != PriceAt(pool, l, j)
  {
  }

  /** The first order of a level, once l[k] has left. */
  lemma ShrinkHead(side: Side, pool: Pool, l: seq<Ref>, lv: Levels, k: nat, pool': Pool, l': seq<Ref>, lv': Levels,
                   i: nat)
    requires Drops(pool, l, k, pool', l') && PriceSorted(side, pool, l) && i < |l'| && Opens(pool', l', i)
    requires LevelAt(pool, l, lv, k) && LevelAt(pool, l, lv, Source(k, i)) && Shrunk(pool, l, k, lv, lv')
    ensures lv'[PriceAt(pool', l', i)].head == l'[i] && lv'[PriceAt(pool', l', i)].prev == PriceBefore(pool', l', i)
  {
    DropOpens(side, pool, l, k, pool', l', i);
    ShrinkNeighbours(side, pool, l, k, Source(k, i));
    assert PriceAt(pool', l', i) == PriceAt(pool, l, Source(k, i));
    assert 0 < i ==> PriceAt(pool', l', i - 1) == PriceAt(pool, l, Source(k, i - 1));
  }

  /** The last order of a level, once l[k] has left. */
  lemma ShrinkTail(side: Side, pool: Pool, l: seq<Ref>, lv: Levels, k: nat, pool': Pool, l': seq<Ref>, lv': Levels,
                   i: nat)
    requires Drops(pool, l, k, pool', l') && PriceSorted(side, pool, l) && i < |l'| && Closes(pool', l', i)
    requires LevelAt(pool, l, lv, k) && LevelAt(pool, l, lv, Source(k, i)) && Shrunk(pool, l, k, lv, lv')
    ensures lv'[PriceAt(pool', l', i)].tail == l'[i] && lv'[PriceAt(pool', l', i)].next == PriceFrom(pool', l', i + 1)
  {
    DropCloses(side, pool, l, k, pool', l', i);
    ShrinkNeighbours(side, pool, l, k, Source(k, i));
    assert PriceAt(pool', l', i) == PriceAt(pool, l, Source(k, i));
    assert i + 1 < |l'| ==> PriceAt(pool', l', i + 1) == PriceAt(pool, l, Source(k, i + 1));
  }

  lemma ShrinkAt(side: Side, pool: Pool, l: seq<Ref>, lv: Levels, k: nat, pool': Pool, l': seq<Ref>, lv': Levels,
                 i: nat)
    requires Drops(pool, l, k, pool', l') && PriceSorted(side, pool, l) && i < |l'|
    requires forall x :: 0 <= x < |l| ==> LevelAt(pool, l, lv, x)
    requires Shrunk(pool, l, k, lv, lv') && |lv'| == |lv|
    ensures LevelAt(pool', l', lv', i)
  {
    hide PriceSorted, Shrunk;
    assert LevelAt(pool, l, lv, Source(k, i)) && LevelAt(pool, l, lv, k);
    assert PriceAt(pool', l', i) == PriceAt(pool, l, Source(k, i));
    if Opens(pool', l', i) {
      ShrinkHead(side, pool, l, lv, k, pool', l', lv', i);
    }
    if Closes(pool', l', i) {
      ShrinkTail(side, pool, l, lv, k, pool', l', lv', i);
    }
  }

  function ShrunkBest(best: LevelRef, p: Price, cut: bool, next: LevelRef): LevelRef {
    if cut && best == p then next else best
  }

  /** An occupied level's list links are the prices around it. */
  lemma LevelLinks(side: Side, pool: Pool, l: seq<Ref>, lv: Levels, best: LevelRef, k: nat)
    requires Chain(side, pool, l) && LevelArray(pool, l, lv, best) && k < |l|
    ensures var p := PriceAt(pool, l, k);
            && p < |lv|
            && (Opens(pool, l, k) ==> lv[p].prev == PriceBefore(pool, l, k))
            && (Closes(pool, l, k) ==> lv[p].next == PriceFrom(pool, l, k + 1))
    ensures InRange(lv, PriceBefore(pool, l, k)) && InRange(lv, PriceFrom(pool, l, k + 1))
  {
    assert LevelAt(pool, l, lv, k);
    assert 0 < k ==> LevelAt(pool, l, lv, k - 1);
    assert k + 1 < |l| ==> LevelAt(pool, l, lv, k + 1);
  }

  lemma {:induction false} PrevInRange(side: Side, pool: Pool, l: seq<Ref>, lv: Levels, best: LevelRef, k: nat)
    requires Chain(side, pool, l) && LevelArray(pool, l, lv, best) && k < |l|
    ensures PriceAt(pool, l, k) < |lv| && InRange(lv, lv[PriceAt(pool, l, k)].prev)
    decreases k
  {
    LevelLinks(side, pool, l, lv, best, k);
    if !Opens(pool, l, k) {
      PrevInRange(side, pool, l, lv, best, k - 1);
    }
  }

  lemma {:induction false} NextInRange(side: Side, pool: Pool, l: seq<Ref>, lv: Levels, best: LevelRef, k: nat)
    requires Chain(side, pool, l) && LevelArray(pool, l, lv, best) && k < |l|
    ensures PriceAt(pool, l, k) < |lv| && InRange(lv, lv[PriceAt(pool, l, k)].next)
    decreases |l| - k
  {
    LevelLinks(side, pool, l, lv, best, k);
    if !Closes(pool, l, k) {
      NextInRange(side, pool, l, lv, best, k + 1);
    }
  }

  lemma ShrinkVacant(pool: Pool, l: seq<Ref>, lv: Levels, best: LevelRef, k: nat,
                     pool': Pool, l': seq<Ref>, lv': Levels, p: Price)
    requires Drops(pool, l, k, pool', l') && LevelArray(pool, l, lv, best)
    requires Shrunk(pool, l, k, lv, lv') && p < |lv'|
    ensures lv'[p].price == p && (Occupied(pool', l', p) || lv'[p] == Vacant(p))
  {
    assert LevelAt(pool, l, lv, k);
    if Occupied(pool, l, p) {
      var j :| 0 <= j < |l| && PriceAt(pool, l, j) == p;
      if j == k && !(Opens(pool, l, k) && Closes(pool, l, k)) {
        j := if Opens(pool, l, k) then k + 1 else k - 1;
      }
      if j != k {
        assert PriceAt(pool', l', if j < k then j else j - 1) == p;
      }
    } else {
      assert 0 < k ==> PriceAt(pool, l, k - 1) != p;
      assert k + 1 < |l| ==> PriceAt(pool, l, k + 1) != p;
    }
  }

  lemma ShrinkBest(side: Side, pool: Pool, l: seq<Ref>, lv: Levels, best: LevelRef, k: nat, pool': Pool, l': seq<Ref>)
    requires Drops(pool, l, k, pool', l') && Chain(side, pool, l) && LevelArray(pool, l, lv, best)
    ensures var p := PriceAt(pool, l, k);
            && p < |lv|
            && PriceFrom(pool', l', 0) ==
               ShrunkBest(best, p, Opens(pool, l, k) && Closes(pool, l, k), lv[p].next)
  {
    assert LevelAt(pool, l, lv, k);
    if 0 < k {
      ShrinkNeighbours(side, pool, l, k, 0);
      assert PriceAt(pool', l', 0) == PriceAt(pool, l, 0);
    } else if 1 < |l| {
      assert PriceAt(pool', l', 0) == PriceAt(pool, l, 1);
    }
  }

  lemma ShrinkArray(side: Side, pool: Pool, l: seq<Ref>, lv: Levels, best: LevelRef, k: nat, lv': Levels)
    requires Chain(side, pool, l) && LevelArray(pool, l, lv, best) && k < |l| && Shrunk(pool, l, k, lv, lv')
    ensures LinksLive(pool, l[k]) && Live(Unlink(pool, l[k]), Remove(l, k))
    ensures var p := PriceAt(pool, l, k);
            LevelArray(Unlink(pool, l[k]), Remove(l, k), lv',
                       ShrunkBest(best, p, Opens(pool, l, k) && Closes(pool, l, k), lv[p].next))
  {
    NeighboursLive(side, pool, l, k);
    UnlinkDrops(pool, l, k);
    var pool', l' := Unlink(pool, l[k]), Remove(l, k);
    forall i | 0 <= i < |l'|
      ensures LevelAt(pool', l', lv', i)
    {
      ShrinkAt(side, pool, l, lv, k, pool', l', lv', i);
    }
    forall p | 0 <= p < |lv'|
      ensures lv'[p].price == p && (Occupied(pool', l', p) || lv'[p] == Vacant(p))
    {
      ShrinkVacant(pool, l, lv, best, k, pool', l', lv', p);
    }
    ShrinkBest(side, pool, l, lv, best, k, pool', l');
  }

  /** An update that keeps every price of this side keeps its level array. */
  lemma ArrayFrame(pool: Pool, pool': Pool, l: seq<Ref>, lv: Levels, best: LevelRef)
    requires Live(pool, l) && Live(pool', l) && LevelArray(pool, l, lv, best)
    requires forall i :: 0 <= i < |l| ==> pool'[l[i]].o.price == pool[l[i]].o.price
    ensures LevelArray(pool', l, lv, best)
  {
    assert forall i :: 0 <= i < |l| ==> PriceAt(pool', l, i) == PriceAt(pool, l, i);
    forall i | 0 <= i < |l|
      ensures LevelAt(pool', l, lv, i)
    {
      assert LevelAt(pool, l, lv, i);
    }
    forall p | 0 <= p < |lv| && Occupied(pool, l, p)
      ensures Occupied(pool', l, p)
    {
      var i :| 0 <= i < |l| && PriceAt(pool, l, i) == p;
      assert PriceAt(pool', l, i) == p;
    }
  }

  lemma ArrayUntouched(pool: Pool, pool': Pool, l: seq<Ref>, lv: Levels, best: LevelRef)
    requires Live(pool, l) && Live(pool', l) && LevelArray(pool, l, lv, best)
    requires Values(pool', l) == Values(pool, l)
    ensures LevelArray(pool', l, lv, best)
  {
    forall i | 0 <= i < |l|
      ensures pool'[l[i]].o.price == pool[l[i]].o.price
    {
      assert Values(pool', l)[i] == Values(pool, l)[i];
    }
    ArrayFrame(pool, pool', l, lv, best);
  }

  // ---------------------------------------------------------------- threading a level in

  lemma {:induction false} LastOfLevel(side: Side, pool: Pool, l: seq<Ref>, i: nat) returns (j: nat)
    requires Live(pool, l) && PriceSorted(side, pool, l) && i < |l|
    ensures i <= j < |l| && Closes(pool, l, j) && PriceAt(pool, l, j) == PriceAt(pool, l, i)
    decreases |l| - i
  {
    j := i;
    if !Closes(pool, l, i) {
      j := LastOfLevel(side, pool, l, i + 1);
    }
  }

  // ---------------------------------------------------------------- the list as a whole

  /** ps is the linked list of levels: the links agree in both directions. */
  ghost predicate IsList(lv: Levels, ps: seq<Price>) {
    && (forall i :: 0 <= i < |ps| ==> ps[i] < |lv|)
    && (forall i :: 0 <= i < |ps| ==> lv[ps[i]].next == if i + 1 < |ps| then ps[i + 1] else NIL)
    && (forall i :: 0 < i < |ps| ==> lv[ps[i]].prev == ps[i - 1])
  }

  ghost predicate StrictlySorted(side: Side, ps: seq<Price>) {
    forall i, j :: 0 <= i < j < |ps| ==> Better(side, ps[i], ps[j])
  }

  lemma NothingListed(side: Side, lv: Levels)
    ensures StrictlySorted(side, []) && IsList(lv, [])
  {
  }

  lemma SortedFrom(side: Side, p: Price, rest: seq<Price>)
    requires StrictlySorted(side, rest) && forall q :: q in rest ==> Better(side, p, q)
    ensures StrictlySorted(side, [p] + rest)
  {
  }

  lemma ListFrom(lv: Levels, p: Price, rest: seq<Price>)
    requires IsList(lv, rest) && p < |lv|
    requires lv[p].next == if rest == [] then NIL else rest[0]
    requires rest != [] ==> lv[rest[0]].prev == p
    ensures IsList(lv, [p] + rest)
  {
    var ps := [p] + rest;
    forall i | 0 <= i < |ps|
      ensures ps[i] < |lv|
      ensures lv[ps[i]].next == if i + 1 < |ps| then ps[i + 1] else NIL
    {
      assert i > 0 ==> ps[i] == rest[i - 1];
      assert i + 1 < |ps| ==> ps[i + 1] == rest[i];
    }
    assert IsList(lv, ps);
  }

  /** Every price after the end of a level is worse than that level's. */
  lemma Behind(side: Side, pool: Pool, l: seq<Ref>, j: nat, rest: seq<Price>)
    requires Live(pool, l) && PriceSorted(side, pool, l) && j < |l| && Closes(pool, l, j)
    requires forall p :: p in rest ==> exists x :: j + 1 <= x < |l| && PriceAt(pool, l, x) == p
    ensures forall q :: q in rest ==> Better(side, PriceAt(pool, l, j), q)
  {
  }

  lemma {:induction false} WalkFrom(side: Side, pool: Pool, l: seq<Ref>, lv: Levels, best: LevelRef, i: nat)
    returns (ps: seq<Price>)
    requires Chain(side, pool, l) && LevelArray(pool, l, lv, best) && i <= |l|
    requires i < |l| ==> Opens(pool, l, i)
    ensures IsList(lv, ps) && StrictlySorted(side, ps)
    ensures (if i < |l| then ps != [] && ps[0] == PriceAt(pool, l, i) else ps == [])
    ensures forall j :: i <= j < |l| ==> PriceAt(pool, l, j) in ps
    ensures forall p :: p in ps ==> exists j :: i <= j < |l| && PriceAt(pool, l, j) == p
    decreases |l| - i
  {
    hide Linked, OnSide, Distinct, LevelArray, StrictlySorted, IsList;
    ps := [];
    NothingListed(side, lv);
    if i < |l| {
      var j := LastOfLevel(side, pool, l, i);
      var rest := WalkFrom(side, pool, l, lv, best, j + 1);
      LevelLinks(side, pool, l, lv, best, j);
      if j + 1 < |l| {
        LevelLinks(side, pool, l, lv, best, j + 1);
      }
      var p := PriceAt(pool, l, i);
      ps := [p] + rest;
      Behind(side, pool, l, j, rest);
      SortedFrom(side, p, rest);
      ListFrom(lv, p, rest);
      forall x | i <= x < |l|
        ensures PriceAt(pool, l, x) in ps
      {
        if x <= j {
          WithinLevel(side, pool, l, i, x, j);
        }
      }
    }
  }

  lemma WithinLevel(side: Side, pool: Pool, l: seq<Ref>, i: nat, x: nat, j: nat)
    requires Live(pool, l) && PriceSorted(side, pool, l) && i <= x <= j < |l|
    requires PriceAt(pool, l, i) == PriceAt(pool, l, j)
    ensures PriceAt(pool, l, x) == PriceAt(pool, l, i)
  {
  }

  /**
   The list from the best pointer is strictly sorted, consistent in both directions, and holds exactly
   the levels that have an order.
   */
  lemma LevelList(side: Side, pool: Pool, l: seq<Ref>, lv: Levels, best: LevelRef) returns (ps: seq<Price>)
    requires Chain(side, pool, l) && LevelArray(pool, l, lv, best)
    ensures IsList(lv, ps) && StrictlySorted(side, ps)
    ensures best == if ps == [] then NIL else ps[0]
    ensures ps != [] ==> lv[ps[0]].prev == NIL
    ensures forall p :: 0 <= p < |lv| ==> (p in ps <==> lv[p].head != NULL)
  {
    ps := WalkFrom(side, pool, l, lv, best, 0);
    if l != [] {
      LevelLinks(side, pool, l, lv, best, 0);
    }
    forall p | 0 <= p < |lv|
      ensures p in ps <==> lv[p].head != NULL
    {
      HeadTellsOccupied(side, pool, l, lv, best, p);
    }
  }

  /** Walks the list from the best level to the last one that is better than p. */
  method FindPredecessor(side: Side, lv: Levels, best: LevelRef, p: Price,
                         ghost pool: Pool, ghost l: seq<Ref>, ghost k: nat)
    returns (curr: LevelRef)
    requires Chain(side, pool, l) && LevelArray(pool, l, lv, best) && p < |lv|
    requires Slot(side, pool, l, k, p, NULL) && 0 < k && PriceAt(pool, l, k - 1) != p
    ensures 0 <= curr < |lv| && curr == PriceAt(pool, l, k - 1) && lv[curr].next == PriceFrom(pool, l, k)
    ensures InRange(lv, lv[curr].next)
  {
    hide Linked, OnSide, Distinct;
    curr := best;
    ghost var j := LastOfLevel(side, pool, l, 0);
    LevelLinks(side, pool, l, lv, best, j);
    while lv[curr].next != NIL && Better(side, lv[lv[curr].next].price, lv[p].price)
      invariant 0 <= j < |l| && j < k && Closes(pool, l, j) && curr == PriceAt(pool, l, j) < |lv|
      invariant lv[curr].next == PriceFrom(pool, l, j + 1) && InRange(lv, lv[curr].next)
      decreases |l| - j
    {
      curr := lv[curr].next;
      j := LastOfLevel(side, pool, l, j + 1);
      LevelLinks(side, pool, l, lv, best, j);
    }
    assert j + 1 == k;
  }

  /** Threads a vacant level into its place in the sorted list of occupied levels. */
  method InsertPriceLevel(side: Side, lv: Levels, best: LevelRef, p: Price,
                          ghost pool: Pool, ghost l: seq<Ref>, ghost k: nat)
    returns (lv': Levels, best': LevelRef)
    requires Chain(side, pool, l) && LevelArray(pool, l, lv, best) && p < |lv| && lv[p] == Vacant(p)
    requires Slot(side, pool, l, k, p, NULL) && (0 < k ==> PriceAt(pool, l, k - 1) != p)
    ensures InRange(lv, PriceBefore(pool, l, k)) && InRange(lv, PriceFrom(pool, l, k))
    ensures lv' == Joined(lv, p, PriceBefore(pool, l, k), PriceFrom(pool, l, k))
    ensures best' == GrownBest(k, p, best)
  {
    hide Linked, OnSide, Distinct, PriceSorted;
    lv', best' := lv, best;
    if best == NIL {
      best' := p;
      return;
    }
    LevelLinks(side, pool, l, lv, best, 0);
    if Better(side, lv[p].price, lv[best].price) {
      assert k == 0;
      lv' := lv'[p := lv'[p].(next := best)];
      lv' := lv'[best := lv'[best].(prev := p)];
      best' := p;
      return;
    }

    assert 0 < k;
    var curr := FindPredecessor(side, lv, best, p, pool, l, k);
    assert curr != p;
    var next := lv'[curr].next;
    lv' := lv'[p := lv'[p].(next := next)];
    if next != NIL {
      lv' := lv'[next := lv'[next].(prev := p)];
    }
    lv' := lv'[curr := lv'[curr].(next := p)];
    lv' := lv'[p := lv'[p].(prev := curr)];
  }
}
