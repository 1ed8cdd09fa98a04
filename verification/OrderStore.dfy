/**
 The storage shared by every concrete book: pooled orders threaded into one doubly linked FIFO per
 price level, and the (client, order id) index. A pointer is a pool address; an address outside the
 map is dangling, so every dereference below is proved to hit a live order.
 */
module OrderStore {
  import opened Types
  import opened PriceTime

  type Ref = nat

  const NULL: Ref := 0

  datatype Node = Node(o: Order, next: Ref, prev: Ref)

  type Pool = map<Ref, Node>

  type Index = map<ClientId, map<OrderId, Ref>>

  // ---------------------------------------------------------------- the priority list of one side

  ghost predicate Live(pool: Pool, l: seq<Ref>) {
    forall i :: 0 <= i < |l| ==> l[i] in pool
  }

  ghost function PriceAt(pool: Pool, l: seq<Ref>, i: nat): Price
    requires Live(pool, l) && i < |l|
  {
    pool[l[i]].o.price
  }

  /** l[i] opens, or closes, the queue of its price level. */
  ghost predicate Opens(pool: Pool, l: seq<Ref>, i: nat)
    requires Live(pool, l) && i < |l|
  {
    i == 0 || PriceAt(pool, l, i - 1) != PriceAt(pool, l, i)
  }

  ghost predicate Closes(pool: Pool, l: seq<Ref>, i: nat)
    requires Live(pool, l) && i < |l|
  {
    i + 1 == |l| || PriceAt(pool, l, i + 1) != PriceAt(pool, l, i)
  }

  ghost predicate Occupied(pool: Pool, l: seq<Ref>, p: Price)
    requires Live(pool, l)
  {
    exists i :: 0 <= i < |l| && PriceAt(pool, l, i) == p
  }

  ghost function NextOf(pool: Pool, l: seq<Ref>, i: nat): Ref
    requires Live(pool, l) && i < |l|
  {
    if Closes(pool, l, i) then NULL else l[i + 1]
  }

  ghost function PrevOf(pool: Pool, l: seq<Ref>, i: nat): Ref
    requires Live(pool, l) && i < |l|
  {
    if Opens(pool, l, i) then NULL else l[i - 1]
  }

  /** The queue links of l[i] point at its neighbours within the level. */
  ghost predicate LinkedAt(pool: Pool, l: seq<Ref>, i: nat)
    requires Live(pool, l) && i < |l|
  {
    pool[l[i]].next == NextOf(pool, l, i) && pool[l[i]].prev == PrevOf(pool, l, i)
  }

  ghost predicate Linked(pool: Pool, l: seq<Ref>)
    requires Live(pool, l)
  {
    forall i :: 0 <= i < |l| ==> LinkedAt(pool, l, i)
  }

  ghost predicate PriceSorted(side: Side, pool: Pool, l: seq<Ref>)
    requires Live(pool, l)
  {
    forall i, j :: 0 <= i < j < |l| ==> !Better(side, PriceAt(pool, l, j), PriceAt(pool, l, i))
  }

  ghost predicate Distinct(l: seq<Ref>) {
    forall i, j :: 0 <= i < j < |l| ==> l[i] != l[j]
  }

  ghost predicate OnSide(side: Side, pool: Pool, l: seq<Ref>)
    requires Live(pool, l)
  {
    forall i :: 0 <= i < |l| ==> pool[l[i]].o.side == side && l[i] != NULL
  }

  /** l lists one side in priority order, and the pool links realise its level queues. */
  ghost predicate Chain(side: Side, pool: Pool, l: seq<Ref>) {
    && Live(pool, l)
    && Distinct(l)
    && OnSide(side, pool, l)
    && PriceSorted(side, pool, l)
    && Linked(pool, l)
  }

  ghost function Values(pool: Pool, l: seq<Ref>): seq<Order>
    requires Live(pool, l)
  {
    seq(|l|, i requires 0 <= i < |l| => pool[l[i]].o)
  }

  ghost predicate SameOn(pool: Pool, pool': Pool, l: seq<Ref>) {
    forall i :: 0 <= i < |l| ==> l[i] in pool && l[i] in pool' && pool'[l[i]] == pool[l[i]]
  }

  /** A side that the update does not touch keeps its chain. */
  lemma ChainFrame(side: Side, pool: Pool, pool': Pool, l: seq<Ref>)
    requires Chain(side, pool, l) && SameOn(pool, pool', l)
    ensures Chain(side, pool', l) && Values(pool', l) == Values(pool, l)
  {
    assert Live(pool', l);
    assert forall i :: 0 <= i < |l| ==> PriceAt(pool', l, i) == PriceAt(pool, l, i);
    forall i | 0 <= i < |l|
      ensures LinkedAt(pool', l, i)
    {
      assert LinkedAt(pool, l, i);
    }
  }

  // ---------------------------------------------------------------- unlinking

  function SetNext(pool: Pool, r: Ref, next: Ref): (p: Pool)
    requires r in pool
    ensures p.Keys == pool.Keys
    ensures forall x :: x in p ==> p[x] == if x == r then pool[x].(next := next) else pool[x]
  {
    pool[r := pool[r].(next := next)]
  }

  function SetPrev(pool: Pool, r: Ref, prev: Ref): (p: Pool)
    requires r in pool
    ensures p.Keys == pool.Keys
    ensures forall x :: x in p ==> p[x] == if x == r then pool[x].(prev := prev) else pool[x]
  {
    pool[r := pool[r].(prev := prev)]
  }

  predicate LinksLive(pool: Pool, r: Ref)
    requires r in pool
  {
    && (pool[r].prev != NULL ==> pool[r].prev in pool)
    && (pool[r].next != NULL ==> pool[r].next in pool)
  }

  /** The neighbours bypass r; r itself still owns its slot. */
  function Bypass(pool: Pool, r: Ref): (p: Pool)
    requires r in pool && LinksLive(pool, r)
    ensures p.Keys == pool.Keys
    ensures forall x :: x in p ==> p[x].o == pool[x].o
    ensures forall x :: x in p && x != pool[r].prev && x != pool[r].next ==> p[x] == pool[x]
  {
    var n := pool[r];
    var p1 := if n.prev != NULL then SetNext(pool, n.prev, n.next) else pool;
    if n.next != NULL then SetPrev(p1, n.next, n.prev) else p1
  }

  lemma NeighboursLive(side: Side, pool: Pool, l: seq<Ref>, k: nat)
    requires Chain(side, pool, l) && k < |l|
    ensures LinksLive(pool, l[k])
    ensures pool[l[k]].prev == PrevOf(pool, l, k)
    ensures pool[l[k]].next == NextOf(pool, l, k)
  {
    assert LinkedAt(pool, l, k);
  }

  /** Bypassing l[k] changes exactly the two facing links of its neighbours in the same level. */
  lemma BypassEffect(side: Side, pool: Pool, l: seq<Ref>, k: nat, i: nat)
    requires Chain(side, pool, l) && k < |l| && i < |l| && i != k
    requires LinksLive(pool, l[k])
    ensures var n, n' := pool[l[i]], Bypass(pool, l[k])[l[i]];
            && n'.o == n.o
            && n'.next == (if i + 1 == k && !Opens(pool, l, k) then pool[l[k]].next else n.next)
            && n'.prev == (if i == k + 1 && !Closes(pool, l, k) then pool[l[k]].prev else n.prev)
  {
    NeighboursLive(side, pool, l, k);
    NeighboursLive(side, pool, l, i);
    assert l[i] != l[k];
    assert k > 0 && i + 1 != k ==> l[i] != l[k - 1];
    assert k + 1 < |l| && i != k + 1 ==> l[i] != l[k + 1];
  }

  function Unlink(pool: Pool, r: Ref): (p: Pool)
    requires r in pool && LinksLive(pool, r)
    ensures p.Keys == pool.Keys - {r}
    ensures forall x :: x in p ==> p[x].o == pool[x].o
    ensures forall x :: x in p && x != pool[r].prev && x != pool[r].next ==> p[x] == pool[x]
  {
    Bypass(pool, r) - {r}
  }

  /** Where position i of the shortened list came from. */
  ghost function Source(k: nat, i: nat): nat {
    if i < k then i else i + 1
  }

  lemma UnlinkAt(pool: Pool, l: seq<Ref>, k: nat, i: nat)
    requires Live(pool, l) && Distinct(l) && k < |l| && LinksLive(pool, l[k]) && i + 1 < |l|
    ensures var pool', x := Unlink(pool, l[k]), Remove(l, k)[i];
            x == l[Source(k, i)] && x in pool' && pool'[x].o == pool[x].o
  {
  }

  lemma UnlinkLists(side: Side, pool: Pool, l: seq<Ref>, k: nat)
    requires Chain(side, pool, l) && k < |l| && LinksLive(pool, l[k])
    ensures var pool', l' := Unlink(pool, l[k]), Remove(l, k);
            && Live(pool', l') && Distinct(l') && OnSide(side, pool', l') && PriceSorted(side, pool', l')
            && Values(pool', l') == Remove(Values(pool, l), k)
  {
    var pool', l' := Unlink(pool, l[k]), Remove(l, k);
    forall i | 0 <= i < |l'|
      ensures l'[i] in pool' && pool'[l'[i]].o == Remove(Values(pool, l), k)[i]
      ensures pool'[l'[i]].o.side == side && l'[i] != NULL
    {
      UnlinkAt(pool, l, k, i);
    }
    forall i, j | 0 <= i < j < |l'|
      ensures l'[i] != l'[j] && !Better(side, PriceAt(pool', l', j), PriceAt(pool', l', i))
    {
      UnlinkAt(pool, l, k, i);
      UnlinkAt(pool, l, k, j);
      assert !Better(side, PriceAt(pool, l, Source(k, j)), PriceAt(pool, l, Source(k, i)));
    }
  }

  /** Equal prices are contiguous in priority order. */
  lemma SegmentConvex(side: Side, pool: Pool, l: seq<Ref>, i: nat, j: nat)
    requires Live(pool, l) && PriceSorted(side, pool, l)
    requires i < j < |l| && PriceAt(pool, l, i) == PriceAt(pool, l, j)
    ensures PriceAt(pool, l, i + 1) == PriceAt(pool, l, i)
    ensures PriceAt(pool, l, j - 1) == PriceAt(pool, l, j)
  {
  }

  /** pool' and l' are pool and l without l[k], as far as prices can tell. */
  ghost predicate Drops(pool: Pool, l: seq<Ref>, k: nat, pool': Pool, l': seq<Ref>) {
    && Live(pool, l) && Live(pool', l') && k < |l| == |l'| + 1
    && (forall i :: 0 <= i < |l'| ==>
          l'[i] == l[Source(k, i)] && PriceAt(pool', l', i) == PriceAt(pool, l, Source(k, i)))
  }

  /** Only the two neighbours of k can become an end of their level. */
  lemma DropOpens(side: Side, pool: Pool, l: seq<Ref>, k: nat, pool': Pool, l': seq<Ref>, i: nat)
    requires Drops(pool, l, k, pool', l') && PriceSorted(side, pool, l) && i < |l'|
    ensures Opens(pool', l', i) <==>
            if i == k then Opens(pool, l, k) || Closes(pool, l, k) else Opens(pool, l, Source(k, i))
  {
  }

  lemma DropCloses(side: Side, pool: Pool, l: seq<Ref>, k: nat, pool': Pool, l': seq<Ref>, i: nat)
    requires Drops(pool, l, k, pool', l') && PriceSorted(side, pool, l) && i < |l'|
    ensures Closes(pool', l', i) <==>
            if i + 1 == k then Opens(pool, l, k) || Closes(pool, l, k) else Closes(pool, l, Source(k, i))
  {
  }

  lemma UnlinkDrops(pool: Pool, l: seq<Ref>, k: nat)
    requires Live(pool, l) && Distinct(l) && k < |l| && LinksLive(pool, l[k])
    ensures Drops(pool, l, k, Unlink(pool, l[k]), Remove(l, k))
  {
  }

  lemma UnlinkEffect(side: Side, pool: Pool, l: seq<Ref>, k: nat, i: nat)
    requires Chain(side, pool, l) && k < |l| && i < |l| && i != k && LinksLive(pool, l[k])
    ensures l[i] in Unlink(pool, l[k])
    ensures var n, n' := pool[l[i]], Unlink(pool, l[k])[l[i]];
            && n'.next == (if i + 1 == k && !Opens(pool, l, k) then pool[l[k]].next else n.next)
            && n'.prev == (if i == k + 1 && !Closes(pool, l, k) then pool[l[k]].prev else n.prev)
  {
    hide Bypass;
    BypassEffect(side, pool, l, k, i);
    assert l[i] != l[k];
  }

  lemma UnlinkLink(side: Side, pool: Pool, l: seq<Ref>, k: nat, i: nat)
    requires Chain(side, pool, l) && k < |l| && LinksLive(pool, l[k]) && i + 1 < |l|
    requires Live(Unlink(pool, l[k]), Remove(l, k))
    ensures LinkedAt(Unlink(pool, l[k]), Remove(l, k), i)
  {
    hide Unlink, PriceSorted, OnSide, Linked, Distinct;
    UnlinkDrops(pool, l, k);
    DropOpens(side, pool, l, k, Unlink(pool, l[k]), Remove(l, k), i);
    DropCloses(side, pool, l, k, Unlink(pool, l[k]), Remove(l, k), i);
    UnlinkEffect(side, pool, l, k, Source(k, i));
    NeighboursLive(side, pool, l, k);
    NeighboursLive(side, pool, l, Source(k, i));
  }

  lemma UnlinkChain(side: Side, pool: Pool, l: seq<Ref>, k: nat)
    requires Chain(side, pool, l) && k < |l|
    ensures LinksLive(pool, l[k])
    ensures Chain(side, Unlink(pool, l[k]), Remove(l, k))
    ensures Values(Unlink(pool, l[k]), Remove(l, k)) == Remove(Values(pool, l), k)
  {
    NeighboursLive(side, pool, l, k);
    UnlinkLists(side, pool, l, k);
    var pool', l' := Unlink(pool, l[k]), Remove(l, k);
    forall i | 0 <= i < |l'|
      ensures LinkedAt(pool', l', i)
    {
      UnlinkLink(side, pool, l, k, i);
    }
  }

  // ---------------------------------------------------------------- appending to a level

  ghost function InsertAt<T>(l: seq<T>, k: nat, x: T): seq<T>
    requires k <= |l|
  {
    l[..k] + [x] + l[k..]
  }

  /** A new node behind the level's tail, if the level has one. */
  function Append(pool: Pool, r: Ref, o: Order, tail: Ref): (p: Pool)
    requires r !in pool && (tail != NULL ==> tail in pool)
    ensures p.Keys == pool.Keys + {r}
    ensures p[r] == Node(o, NULL, tail)
    ensures forall x :: x in pool ==>
      p[x] == if x == tail && tail != NULL then pool[x].(next := r) else pool[x]
  {
    (if tail != NULL then SetNext(pool, tail, r) else pool)[r := Node(o, NULL, tail)]
  }

  /** Where the new order goes, and who precedes it in its level. */
  ghost predicate Slot(side: Side, pool: Pool, l: seq<Ref>, k: nat, price: Price, tail: Ref)
    requires Live(pool, l)
  {
    && k <= |l|
    && (forall i :: 0 <= i < k ==> !Better(side, price, PriceAt(pool, l, i)))
    && (forall i :: k <= i < |l| ==> Better(side, price, PriceAt(pool, l, i)))
    && tail == if 0 < k && PriceAt(pool, l, k - 1) == price then l[k - 1] else NULL
  }

  lemma SlotExists(side: Side, pool: Pool, l: seq<Ref>, price: Price) returns (k: nat)
    requires Chain(side, pool, l)
    ensures k == InsertPos(side, Values(pool, l), price) <= |l|
    ensures Slot(side, pool, l, k, price, if 0 < k && PriceAt(pool, l, k - 1) == price then l[k - 1] else NULL)
  {
    var v := Values(pool, l);
    k := InsertPos(side, v, price);
    forall i | 0 <= i < |l|
      ensures i < k ==> !Better(side, price, PriceAt(pool, l, i))
      ensures k <= i ==> Better(side, price, PriceAt(pool, l, i))
    {
      assert v[i].price == PriceAt(pool, l, i);
      if k < i {
        assert v[k].price == PriceAt(pool, l, k);
        assert !Better(side, PriceAt(pool, l, i), PriceAt(pool, l, k));
      }
    }
  }

  lemma AppendLists(side: Side, pool: Pool, l: seq<Ref>, k: nat, r: Ref, o: Order, tail: Ref)
    requires Chain(side, pool, l) && r != NULL && r !in pool && o.side == side
    requires Slot(side, pool, l, k, o.price, tail)
    ensures var pool', l' := Append(pool, r, o, tail), InsertAt(l, k, r);
            Live(pool', l') && OnSide(side, pool', l') && Values(pool', l') == InsertAt(Values(pool, l), k, o)
  {
  }

  /** pool' and l' are pool and l with r queued at position k. */
  ghost predicate Gains(pool: Pool, l: seq<Ref>, k: nat, r: Ref, price: Price, pool': Pool, l': seq<Ref>) {
    && Live(pool, l) && Live(pool', l') && k < |l'| == |l| + 1
    && l'[k] == r && PriceAt(pool', l', k) == price
    && (forall i :: 0 <= i < |l'| && i != k ==>
          var j := if i < k then i else i - 1;
          l'[i] == l[j] && PriceAt(pool', l', i) == PriceAt(pool, l, j))
  }

  lemma AppendGains(pool: Pool, l: seq<Ref>, k: nat, r: Ref, o: Order, tail: Ref)
    requires Live(pool, l) && r !in pool && k <= |l| && (tail != NULL ==> tail in pool)
    ensures Gains(pool, l, k, r, o.price, Append(pool, r, o, tail), InsertAt(l, k, r))
  {
  }

  lemma GainOpens(side: Side, pool: Pool, l: seq<Ref>, k: nat, r: Ref, price: Price, tail: Ref,
                  pool': Pool, l': seq<Ref>, i: nat)
    requires Gains(pool, l, k, r, price, pool', l') && Slot(side, pool, l, k, price, tail) && i < |l'|
    ensures i < k ==> (Opens(pool', l', i) <==> Opens(pool, l, i))
    ensures i == k ==> (Opens(pool', l', i) <==> k == 0 || PriceAt(pool, l, k - 1) != price)
    ensures i > k ==> (Opens(pool', l', i) <==> Opens(pool, l, i - 1))
  {
  }

  lemma GainCloses(side: Side, pool: Pool, l: seq<Ref>, k: nat, r: Ref, price: Price, tail: Ref,
                   pool': Pool, l': seq<Ref>, i: nat)
    requires Gains(pool, l, k, r, price, pool', l') && Slot(side, pool, l, k, price, tail) && i < |l'|
    ensures i + 1 < k ==> (Closes(pool', l', i) <==> Closes(pool, l, i))
    ensures i + 1 == k ==> (Closes(pool', l', i) <==> PriceAt(pool, l, k - 1) != price)
    ensures i == k ==> Closes(pool', l', i)
    ensures i > k ==> (Closes(pool', l', i) <==> Closes(pool, l, i - 1))
  {
  }

  lemma GainSorted(side: Side, pool: Pool, l: seq<Ref>, k: nat, r: Ref, price: Price, tail: Ref,
                   pool': Pool, l': seq<Ref>)
    requires Gains(pool, l, k, r, price, pool', l') && Slot(side, pool, l, k, price, tail)
    requires PriceSorted(side, pool, l) && Distinct(l) && r !in l
    ensures Distinct(l') && PriceSorted(side, pool', l')
  {
  }

  /** The newcomer splits no level: behind k every price is worse. */
  lemma SlotSplits(side: Side, pool: Pool, l: seq<Ref>, k: nat, price: Price, tail: Ref)
    requires Live(pool, l) && Slot(side, pool, l, k, price, tail)
    ensures 0 < k && PriceAt(pool, l, k - 1) == price ==> Closes(pool, l, k - 1)
    ensures 0 < k < |l| ==> Closes(pool, l, k - 1) && Opens(pool, l, k)
  {
  }

  lemma AppendLink(side: Side, pool: Pool, l: seq<Ref>, k: nat, r: Ref, o: Order, tail: Ref, i: nat)
    requires Chain(side, pool, l) && r != NULL && r !in pool && o.side == side
    requires Slot(side, pool, l, k, o.price, tail) && i <= |l|
    ensures Live(Append(pool, r, o, tail), InsertAt(l, k, r))
    ensures LinkedAt(Append(pool, r, o, tail), InsertAt(l, k, r), i)
  {
    var pool', l' := Append(pool, r, o, tail), InsertAt(l, k, r);
    AppendGains(pool, l, k, r, o, tail);
    GainOpens(side, pool, l, k, r, o.price, tail, pool', l', i);
    GainCloses(side, pool, l, k, r, o.price, tail, pool', l', i);
    SlotSplits(side, pool, l, k, o.price, tail);
    if i != k {
      var j := if i < k then i else i - 1;
      assert LinkedAt(pool, l, j);
      assert 0 < k && j != k - 1 ==> l[j] != l[k - 1];
    }
  }

  lemma AppendChain(side: Side, pool: Pool, l: seq<Ref>, k: nat, r: Ref, o: Order, tail: Ref)
    requires Chain(side, pool, l) && r != NULL && r !in pool && o.side == side
    requires Slot(side, pool, l, k, o.price, tail)
    ensures Chain(side, Append(pool, r, o, tail), InsertAt(l, k, r))
    ensures Values(Append(pool, r, o, tail), InsertAt(l, k, r)) == InsertAt(Values(pool, l), k, o)
  {
    AppendLists(side, pool, l, k, r, o, tail);
    AppendGains(pool, l, k, r, o, tail);
    GainSorted(side, pool, l, k, r, o.price, tail, Append(pool, r, o, tail), InsertAt(l, k, r));
    forall i | 0 <= i < |InsertAt(l, k, r)|
      ensures LinkedAt(Append(pool, r, o, tail), InsertAt(l, k, r), i)
    {
      AppendLink(side, pool, l, k, r, o, tail, i);
    }
  }

  // ---------------------------------------------------------------- shrinking an order in place

  function SetRemaining(pool: Pool, r: Ref, q: Quantity): (p: Pool)
    requires r in pool
    ensures p.Keys == pool.Keys
    ensures forall x :: x in p ==> p[x] == if x == r then pool[x].(o := pool[x].o.(remaining := q)) else pool[x]
  {
    pool[r := pool[r].(o := pool[r].o.(remaining := q))]
  }

  lemma SetRemainingChain(side: Side, pool: Pool, l: seq<Ref>, k: nat, q: Quantity)
    requires Chain(side, pool, l) && k < |l|
    ensures Chain(side, SetRemaining(pool, l[k], q), l)
    ensures Values(SetRemaining(pool, l[k], q), l) == Values(pool, l)[k := pool[l[k]].o.(remaining := q)]
  {
    var pool' := SetRemaining(pool, l[k], q);
    assert Live(pool', l);
    assert forall i :: 0 <= i < |l| ==> PriceAt(pool', l, i) == PriceAt(pool, l, i);
    forall i | 0 <= i < |l|
      ensures LinkedAt(pool', l, i)
    {
      assert LinkedAt(pool, l, i);
    }
  }

  // ---------------------------------------------------------------- one side of a store

  /** l is the chain of every live order of this side. */
  ghost predicate SideValid(side: Side, pool: Pool, l: seq<Ref>) {
    && Chain(side, pool, l)
    && (forall r :: r in pool && pool[r].o.side == side ==> r in l)
  }

  lemma UnlinkSide(side: Side, pool: Pool, l: seq<Ref>, k: nat)
    requires SideValid(side, pool, l) && k < |l|
    ensures LinksLive(pool, l[k])
    ensures SideValid(side, Unlink(pool, l[k]), Remove(l, k))
    ensures Values(Unlink(pool, l[k]), Remove(l, k)) == Remove(Values(pool, l), k)
  {
    UnlinkChain(side, pool, l, k);
    var pool' := Unlink(pool, l[k]);
    forall x | x in pool' && pool'[x].o.side == side
      ensures x in Remove(l, k)
    {
      var i :| 0 <= i < |l| && l[i] == x;
      assert Remove(l, k)[if i < k then i else i - 1] == x;
    }
  }

  /** The neighbours of an order sit on its side, so the other side is untouched. */
  lemma UnlinkOther(side: Side, pool: Pool, l: seq<Ref>, k: nat, m: seq<Ref>)
    requires Chain(side, pool, l) && k < |l| && LinksLive(pool, l[k])
    requires SideValid(side.Opposite(), pool, m)
    ensures SideValid(side.Opposite(), Unlink(pool, l[k]), m)
    ensures Values(Unlink(pool, l[k]), m) == Values(pool, m)
  {
    NeighboursLive(side, pool, l, k);
    var pool' := Unlink(pool, l[k]);
    assert pool[l[k]].prev != NULL ==> pool[pool[l[k]].prev].o.side == side;
    assert pool[l[k]].next != NULL ==> pool[pool[l[k]].next].o.side == side;
    forall i | 0 <= i < |m|
      ensures m[i] in pool && m[i] in pool' && pool'[m[i]] == pool[m[i]]
    {
      assert pool[m[i]].o.side == side.Opposite();
    }
    ChainFrame(side.Opposite(), pool, pool', m);
  }

  lemma AppendSide(side: Side, pool: Pool, l: seq<Ref>, k: nat, r: Ref, o: Order, tail: Ref)
    requires SideValid(side, pool, l) && r != NULL && r !in pool && o.side == side
    requires Slot(side, pool, l, k, o.price, tail)
    ensures SideValid(side, Append(pool, r, o, tail), InsertAt(l, k, r))
    ensures Values(Append(pool, r, o, tail), InsertAt(l, k, r)) == InsertAt(Values(pool, l), k, o)
  {
    AppendChain(side, pool, l, k, r, o, tail);
    var pool', l' := Append(pool, r, o, tail), InsertAt(l, k, r);
    forall x | x in pool' && pool'[x].o.side == side
      ensures x in l'
    {
      if x == r {
        assert l'[k] == r;
      } else {
        var i :| 0 <= i < |l| && l[i] == x;
        assert l'[if i < k then i else i + 1] == x;
      }
    }
  }

  lemma AppendOther(side: Side, pool: Pool, r: Ref, o: Order, tail: Ref, m: seq<Ref>)
    requires SideValid(side.Opposite(), pool, m) && r !in pool && o.side == side
    requires tail != NULL ==> tail in pool && pool[tail].o.side == side
    ensures SideValid(side.Opposite(), Append(pool, r, o, tail), m)
    ensures Values(Append(pool, r, o, tail), m) == Values(pool, m)
  {
    var pool' := Append(pool, r, o, tail);
    forall i | 0 <= i < |m|
      ensures m[i] in pool && m[i] in pool' && pool'[m[i]] == pool[m[i]]
    {
      assert pool[m[i]].o.side == side.Opposite();
    }
    ChainFrame(side.Opposite(), pool, pool', m);
  }

  lemma ResizeOther(side: Side, pool: Pool, r: Ref, q: Quantity, m: seq<Ref>)
    requires SideValid(side.Opposite(), pool, m) && r in pool && pool[r].o.side == side
    ensures SideValid(side.Opposite(), SetRemaining(pool, r, q), m)
    ensures Values(SetRemaining(pool, r, q), m) == Values(pool, m)
  {
    var pool' := SetRemaining(pool, r, q);
    forall i | 0 <= i < |m|
      ensures m[i] in pool && m[i] in pool' && pool'[m[i]] == pool[m[i]]
    {
      assert pool[m[i]].o.side == side.Opposite();
    }
    ChainFrame(side.Opposite(), pool, pool', m);
  }

  // ---------------------------------------------------------------- the client index

  predicate Indexes(index: Index, client: ClientId, coid: OrderId, r: Ref) {
    client in index && coid in index[client] && index[client][coid] == r
  }

  predicate Knows(index: Index, client: ClientId, coid: OrderId) {
    client in index && coid in index[client]
  }

  /** Live orders and index entries are in bijection, and no client entry is empty. */
  ghost predicate Indexed(pool: Pool, index: Index) {
    && (forall r :: r in pool ==> Indexes(index, pool[r].o.client, pool[r].o.coid, r))
    && (forall c, k, r :: Indexes(index, c, k, r) ==> r in pool && HasKey(pool[r].o, c, k))
    && (forall c :: c in index ==> index[c] != map[])
  }

  /** Erases an entry, and the client with its last entry. */
  function EraseKey(index: Index, c: ClientId, k: OrderId): Index
    requires c in index
  {
    if index[c] - {k} == map[] then index - {c} else index[c := index[c] - {k}]
  }

  /** orders_[c][k] = r, creating the client entry on first use. */
  function PutKey(index: Index, c: ClientId, k: OrderId, r: Ref): Index {
    index[c := (if c in index then index[c] else map[])[k := r]]
  }

  lemma EraseKeyEffect(index: Index, c: ClientId, k: OrderId, c': ClientId, k': OrderId, r: Ref)
    requires c in index
    ensures Indexes(EraseKey(index, c, k), c', k', r) <==> Indexes(index, c', k', r) && !(c' == c && k' == k)
  {
    if Indexes(index, c', k', r) && c' == c && k' != k {
      assert k' in index[c] - {k};
    }
  }

  lemma EraseIndexed(pool: Pool, index: Index, r: Ref, pool': Pool)
    requires Indexed(pool, index) && r in pool && pool'.Keys == pool.Keys - {r}
    requires forall x :: x in pool' ==> pool'[x].o == pool[x].o
    ensures pool[r].o.client in index
    ensures Indexed(pool', EraseKey(index, pool[r].o.client, pool[r].o.coid))
  {
    var c, k := pool[r].o.client, pool[r].o.coid;
    assert Indexes(index, c, k, r);
    var index' := EraseKey(index, c, k);
    forall x | x in pool'
      ensures Indexes(index', pool'[x].o.client, pool'[x].o.coid, x)
    {
      assert Indexes(index, pool[x].o.client, pool[x].o.coid, x);
      EraseKeyEffect(index, c, k, pool[x].o.client, pool[x].o.coid, x);
    }
    forall c', k', x | Indexes(index', c', k', x)
      ensures x in pool' && HasKey(pool'[x].o, c', k')
    {
      EraseKeyEffect(index, c, k, c', k', x);
    }
  }

  lemma PutIndexed(pool: Pool, index: Index, r: Ref, o: Order, pool': Pool)
    requires Indexed(pool, index) && r !in pool && pool'.Keys == pool.Keys + {r} && pool'[r].o == o
    requires forall x :: x in pool ==> pool'[x].o == pool[x].o
    requires !Knows(index, o.client, o.coid)
    ensures Indexed(pool', PutKey(index, o.client, o.coid, r))
  {
    var index' := PutKey(index, o.client, o.coid, r);
    forall x | x in pool'
      ensures Indexes(index', pool'[x].o.client, pool'[x].o.coid, x)
    {
      assert x in pool ==> Indexes(index, pool[x].o.client, pool[x].o.coid, x);
    }
    forall c, k, x | Indexes(index', c, k, x)
      ensures x in pool' && HasKey(pool'[x].o, c, k)
    {
      assert Indexes(index, c, k, x) || (c == o.client && k == o.coid && x == r);
    }
    assert index'[o.client][o.coid] == r;
  }

  lemma ResizeIndexed(pool: Pool, index: Index, r: Ref, q: Quantity)
    requires Indexed(pool, index) && r in pool
    ensures Indexed(SetRemaining(pool, r, q), index)
  {
  }

  // ---------------------------------------------------------------- the whole store

  /** pool and index are the book's fields; the two lists are the ghost priority order. */
  datatype Store = Store(pool: Pool, index: Index, bidL: seq<Ref>, askL: seq<Ref>) {
    ghost function L(side: Side): seq<Ref> {
      if side.Buy? then bidL else askL
    }

    ghost function WithL(side: Side, l: seq<Ref>): Store {
      if side.Buy? then this.(bidL := l) else this.(askL := l)
    }
  }

  ghost predicate Valid(s: Store) {
    && SideValid(Buy, s.pool, s.bidL)
    && SideValid(Sell, s.pool, s.askL)
    && NULL !in s.pool
    && Indexed(s.pool, s.index)
  }

  /** The reference book that a store represents. */
  ghost function Abs(s: Store, nextId: OrderId): Book
    requires Live(s.pool, s.bidL) && Live(s.pool, s.askL)
  {
    Book(Values(s.pool, s.bidL), Values(s.pool, s.askL), nextId)
  }

  ghost function Removed(s: Store, side: Side, k: nat): Store
    requires k < |s.L(side)| && s.L(side)[k] in s.pool && LinksLive(s.pool, s.L(side)[k])
    requires s.pool[s.L(side)[k]].o.client in s.index
  {
    var r := s.L(side)[k];
    var index' := EraseKey(s.index, s.pool[r].o.client, s.pool[r].o.coid);
    Store(Unlink(s.pool, r), index', s.bidL, s.askL).WithL(side, Remove(s.L(side), k))
  }

  lemma RemoveValid(s: Store, side: Side, k: nat, nextId: OrderId)
    requires Valid(s) && k < |s.L(side)|
    ensures s.L(side)[k] in s.pool && LinksLive(s.pool, s.L(side)[k])
    ensures s.pool[s.L(side)[k]].o.client in s.index
    ensures Valid(Removed(s, side, k))
    ensures Abs(Removed(s, side, k), nextId) ==
            Abs(s, nextId).With(side, Remove(Abs(s, nextId).Orders(side), k))
  {
    var r := s.L(side)[k];
    UnlinkSide(side, s.pool, s.L(side), k);
    UnlinkOther(side, s.pool, s.L(side), k, s.L(side.Opposite()));
    EraseIndexed(s.pool, s.index, r, Unlink(s.pool, r));
  }

  ghost predicate Insertable(s: Store, k: nat, r: Ref, o: Order, tail: Ref)
    requires Valid(s)
  {
    && r != NULL && r !in s.pool
    && Slot(o.side, s.pool, s.L(o.side), k, o.price, tail)
    && !Knows(s.index, o.client, o.coid)
  }

  ghost function Inserted(s: Store, k: nat, r: Ref, o: Order, tail: Ref): Store
    requires k <= |s.L(o.side)| && r !in s.pool && (tail != NULL ==> tail in s.pool)
  {
    Store(Append(s.pool, r, o, tail), PutKey(s.index, o.client, o.coid, r), s.bidL, s.askL)
    .WithL(o.side, InsertAt(s.L(o.side), k, r))
  }

  lemma InsertValid(s: Store, k: nat, r: Ref, o: Order, tail: Ref, nextId: OrderId)
    requires Valid(s) && Insertable(s, k, r, o, tail)
    ensures Valid(Inserted(s, k, r, o, tail))
    ensures Abs(Inserted(s, k, r, o, tail), nextId) ==
            Abs(s, nextId).With(o.side, InsertAt(Abs(s, nextId).Orders(o.side), k, o))
  {
    hide Linked, PriceSorted, Distinct, PutKey, Indexed;
    AppendSide(o.side, s.pool, s.L(o.side), k, r, o, tail);
    AppendOther(o.side, s.pool, r, o, tail, s.L(o.side.Opposite()));
    PutIndexed(s.pool, s.index, r, o, Append(s.pool, r, o, tail));
  }

  ghost function Resized(s: Store, side: Side, k: nat, q: Quantity): Store
    requires k < |s.L(side)| && s.L(side)[k] in s.pool
  {
    s.(pool := SetRemaining(s.pool, s.L(side)[k], q))
  }

  lemma ResizeValid(s: Store, side: Side, k: nat, q: Quantity, nextId: OrderId)
    requires Valid(s) && k < |s.L(side)|
    ensures Valid(Resized(s, side, k, q))
    ensures Abs(Resized(s, side, k, q), nextId) ==
            Abs(s, nextId).With(side, Abs(s, nextId).Orders(side)[k := s.pool[s.L(side)[k]].o.(remaining := q)])
  {
    SetRemainingChain(side, s.pool, s.L(side), k, q);
    ResizeOther(side, s.pool, s.L(side)[k], q, s.L(side.Opposite()));
    ResizeIndexed(s.pool, s.index, s.L(side)[k], q);
  }

  // ---------------------------------------------------------------- lookup

  /** No other order of either side shares the key of l[i]. */
  lemma KeyAt(side: Side, pool: Pool, index: Index, l: seq<Ref>, i: nat, c: ClientId, k: OrderId)
    requires Chain(side, pool, l) && Indexed(pool, index) && i < |l| && HasKey(pool[l[i]].o, c, k)
    ensures Indexes(index, c, k, l[i])
    ensures Find(Values(pool, l), c, k) == i
  {
    assert Indexes(index, c, k, l[i]);
    var v := Values(pool, l);
    assert v[i] == pool[l[i]].o;
    var j := Find(v, c, k);
    assert v[j] == pool[l[j]].o;
    assert Indexes(index, c, k, l[j]);
  }

  lemma KeyNotAt(side: Side, pool: Pool, index: Index, m: seq<Ref>, r: Ref, c: ClientId, k: OrderId)
    requires Chain(side, pool, m) && Indexed(pool, index)
    requires Knows(index, c, k) ==> Indexes(index, c, k, r) && r in pool && pool[r].o.side != side
    ensures Find(Values(pool, m), c, k) == |m|
  {
  }

  /** The index finds exactly what searching the reference book finds. */
  lemma Locate(s: Store, c: ClientId, k: OrderId, nextId: OrderId) returns (i: nat)
    requires Valid(s) && Knows(s.index, c, k)
    ensures var r := s.index[c][k]; r in s.pool && HasKey(s.pool[r].o, c, k)
    ensures var side := s.pool[s.index[c][k]].o.side;
            && i < |s.L(side)| && s.L(side)[i] == s.index[c][k]
            && Present(Abs(s, nextId), c, k) && SideOf(Abs(s, nextId), c, k) == side
            && Find(Abs(s, nextId).Orders(side), c, k) == i
  {
    var r := s.index[c][k];
    assert Indexes(s.index, c, k, r);
    var side := s.pool[r].o.side;
    i :| 0 <= i < |s.L(side)| && s.L(side)[i] == r;
    KeyAt(side, s.pool, s.index, s.L(side), i, c, k);
    KeyNotAt(side.Opposite(), s.pool, s.index, s.L(side.Opposite()), r, c, k);
  }

  lemma LocateNothing(s: Store, c: ClientId, k: OrderId, nextId: OrderId)
    requires Valid(s) && !Knows(s.index, c, k)
    ensures !Present(Abs(s, nextId), c, k)
  {
  }

  // ---------------------------------------------------------------- allocation

  lemma {:induction false} Bounded(keys: set<Ref>) returns (b: Ref)
    ensures b > NULL && forall r :: r in keys ==> r < b
    decreases |keys|
  {
    b := 1;
    if keys != {} {
      var x :| x in keys;
      var c := Bounded(keys - {x});
      b := if x < c then c else x + 1;
      assert forall r :: r in keys ==> r == x || r in keys - {x};
    }
  }

  /** The object pool hands out some address that is not live. */
  method Allocate(pool: Pool) returns (r: Ref)
    ensures r != NULL && r !in pool
  {
    ghost var b := Bounded(pool.Keys);
    assert b != NULL && b !in pool;
    r :| r != NULL && r !in pool;
  }

  /** A fresh node linked behind tail, or alone when its level has no orders yet. */
  method Link(pool: Pool, o: Order, tail: Ref) returns (r: Ref, pool': Pool)
    requires tail != NULL ==> tail in pool
    ensures r != NULL && r !in pool && pool' == Append(pool, r, o, tail)
  {
    r := Allocate(pool);
    pool' := pool[r := Node(o, NULL, NULL)];
    if tail != NULL {
      pool' := SetPrev(pool', r, tail);
      pool' := SetNext(pool', tail, r);
    }
  }

  /** The neighbours bypass r and its slot returns to the pool. */
  method Free(pool: Pool, r: Ref) returns (pool': Pool)
    requires r in pool && LinksLive(pool, r)
    ensures pool' == Unlink(pool, r)
  {
    var n := pool[r];
    pool' := pool;
    if n.prev != NULL {
      pool' := SetNext(pool', n.prev, n.next);
    }
    if n.next != NULL {
      pool' := SetPrev(pool', n.next, n.prev);
    }
    pool' := pool' - {r};
  }
}
