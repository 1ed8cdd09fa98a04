/**
 What matching computes, without running it: the order at position i of the opposite side gives
 exactly what is wanted after everything in front of it has been taken.
 */
module Greedy {
  import opened Types
  import opened PriceTime
  import opened BookInvariants

  /** Quantity resting in front of position i. */
  function Ahead(l: seq<Order>, i: nat): nat
    requires i <= |l|
  {
    if i == 0 then 0 else l[0].remaining + Ahead(l[1..], i - 1)
  }

  function Monus(a: nat, b: nat): nat {
    if a <= b then 0 else a - b
  }

  /** The share of an incoming quantity that falls on position i. */
  function Share(l: seq<Order>, inc: Incoming, qty: Quantity, i: nat): Quantity
    requires i < |l|
  {
    if Crosses(inc.side, inc.price, l[i].price) then Min(l[i].remaining, Monus(qty, Ahead(l, i))) else 0
  }

  /** Everything the incoming limit may trade with. */
  function Liquidity(l: seq<Order>, inc: Incoming): nat {
    if l == [] || !Crosses(inc.side, inc.price, l[0].price) then 0
    else l[0].remaining + Liquidity(l[1..], inc)
  }

  /** What a replacement could trade with on entry. */
  function ReplaceLiquidity(b: Book, req: Request): nat
    requires Present(b, req.client, req.coid)
  {
    var inc := ReplaceIncoming(b, req);
    Liquidity(WithoutReplaced(b, req).Orders(inc.side.Opposite()), inc)
  }

  /** The request leaves a good-till-cancel order of its own in the book. */
  predicate Lodges(b: Book, req: Request) {
    && req.otype.GoodTillCancel?
    && match req.action
       case NewOrder => Liquidity(b.Orders(req.side.Opposite()), NewIncoming(b, req)) < req.qty
       case CancelOrder => false
       case ModifyOrder => ReplaceAccepted(b, req) && ReplaceLiquidity(b, req) < req.qty
  }

  /** A book that indexes its levels by price can take the request. */
  predicate Indexable(b: Book, req: Request) {
    Lodges(b, req) ==> req.price < MAX_PRICE_LEVELS
  }

  lemma ReplaceIndexable(b: Book, req: Request)
    requires Indexable(b, req.(action := ModifyOrder)) && ReplaceAccepted(b, req)
    ensures var inc := ReplaceIncoming(b, req);
            var opp := WithoutReplaced(b, req).Orders(inc.side.Opposite());
            inc.otype.GoodTillCancel? && Liquidity(opp, inc) < inc.qty ==> inc.price < MAX_PRICE_LEVELS
  {
  }

  ghost predicate Queue(inc: Incoming, l: seq<Order>, nextId: OrderId) {
    SideInv(inc.side.Opposite(), l, nextId)
  }

  lemma QueueTail(inc: Incoming, l: seq<Order>, nextId: OrderId)
    requires Queue(inc, l, nextId) && l != []
    ensures Queue(inc, l[1..], nextId)
  {
  }

  lemma ShareTail(l: seq<Order>, inc: Incoming, qty: Quantity, i: nat)
    requires 0 < i < |l| && l[0].remaining <= qty
    ensures Ahead(l, i) == l[0].remaining + Ahead(l[1..], i - 1)
    ensures Share(l, inc, qty, i) == Share(l[1..], inc, qty - l[0].remaining, i - 1)
  {
  }

  /** When the front absorbs the whole quantity, everyone behind it keeps all of theirs. */
  lemma ShareBehind(l: seq<Order>, inc: Incoming, qty: Quantity, i: nat)
    requires 0 < i < |l| && qty <= l[0].remaining
    ensures Share(l, inc, qty, i) == 0
  {
  }

  /** Position i leaves the book iff its whole quantity is its share; otherwise it keeps the difference. */
  lemma {:induction false} MatchTakesShares(f: Flavor, l: seq<Order>, inc: Incoming, qty: Quantity, mid: OrderId,
                                            nextId: OrderId, i: nat)
    requires Queue(inc, l, nextId) && i < |l|
    ensures var m := Match(f, l, inc, qty, mid);
            var gone := |l| - |m.rest|;
            && 0 <= gone
            && (i < gone ==> Share(l, inc, qty, i) == l[i].remaining)
            && (gone <= i ==> Share(l, inc, qty, i) < l[i].remaining
                              && m.rest[i - gone] == l[i].(remaining := l[i].remaining - Share(l, inc, qty, i)))
    decreases |l|
  {
    hide Queue, Share, Ahead, Crosses, Match, Shrinks, FillOutputs;
    if Stops(l, inc, qty) {
      NoFill(f, l, inc, qty, mid);
      NoShares(inc, l, qty, nextId, i);
    } else if l[0].remaining <= qty {
      FullFill(f, l, inc, qty, mid);
      QueueTail(inc, l, nextId);
      RestIsShort(f, l[1..], inc, qty - l[0].remaining, mid + 1);
      if 0 < i {
        ShareTail(l, inc, qty, i);
        MatchTakesShares(f, l[1..], inc, qty - l[0].remaining, mid + 1, nextId, i - 1);
        assert l[1..][i - 1] == l[i];
      } else {
        FrontShare(l, inc, qty);
      }
    } else {
      PartialFill(f, l, inc, qty, mid);
      FrontShare(l, inc, qty);
      if 0 < i {
        ShareBehind(l, inc, qty, i);
        RestPositive(inc, l, nextId, i);
      }
    }
  }

  lemma {:induction false} AheadGrows(l: seq<Order>, i: nat, j: nat)
    requires i < j <= |l|
    ensures Ahead(l, i) + l[i].remaining <= Ahead(l, j)
  {
    if i > 0 {
      AheadGrows(l[1..], i - 1, j - 1);
    }
  }

  /** Only the last fill can be partial: behind an order within the limit that keeps something, nobody trades. */
  lemma OnlyLastPartial(l: seq<Order>, inc: Incoming, qty: Quantity, i: nat, j: nat)
    requires i < j < |l| && Crosses(inc.side, inc.price, l[i].price) && Share(l, inc, qty, i) < l[i].remaining
    ensures Share(l, inc, qty, j) == 0
  {
    AheadGrows(l, i, j);
  }

  lemma RestIsShort(f: Flavor, l: seq<Order>, inc: Incoming, qty: Quantity, mid: OrderId)
    ensures |Match(f, l, inc, qty, mid).rest| <= |l|
  {
  }

  /** A share is taken only within the limit, and only from what is still wanted. */
  lemma ShareFits(l: seq<Order>, inc: Incoming, qty: Quantity, i: nat)
    requires i < |l| && 0 < Share(l, inc, qty, i)
    ensures Crosses(inc.side, inc.price, l[i].price)
    ensures Ahead(l, i) + Share(l, inc, qty, i) <= qty && Share(l, inc, qty, i) <= l[i].remaining
  {
  }

  lemma RestPositive(inc: Incoming, l: seq<Order>, nextId: OrderId, i: nat)
    requires Queue(inc, l, nextId) && i < |l|
    ensures 0 < l[i].remaining
  {
  }

  lemma NoShares(inc: Incoming, l: seq<Order>, qty: Quantity, nextId: OrderId, i: nat)
    requires Queue(inc, l, nextId) && i < |l| && Stops(l, inc, qty)
    ensures Share(l, inc, qty, i) == 0 < l[i].remaining
  {
  }

  lemma FrontShare(l: seq<Order>, inc: Incoming, qty: Quantity)
    requires !Stops(l, inc, qty)
    ensures Share(l, inc, qty, 0) == Min(l[0].remaining, qty)
  {
  }

  lemma NoFill(f: Flavor, l: seq<Order>, inc: Incoming, qty: Quantity, mid: OrderId)
    requires Stops(l, inc, qty)
    ensures Match(f, l, inc, qty, mid) == MatchResult(l, qty, mid, [])
  {
  }

  lemma FullFill(f: Flavor, l: seq<Order>, inc: Incoming, qty: Quantity, mid: OrderId)
    requires !Stops(l, inc, qty) && l[0].remaining <= qty
    ensures Match(f, l, inc, qty, mid) ==
            Prepend(FillOutputs(f, inc, l[0].(remaining := 0), l[0].remaining, qty - l[0].remaining, mid),
                    Match(f, l[1..], inc, qty - l[0].remaining, mid + 1))
  {
  }

  lemma PartialFill(f: Flavor, l: seq<Order>, inc: Incoming, qty: Quantity, mid: OrderId)
    requires !Stops(l, inc, qty) && qty < l[0].remaining
    ensures var o := l[0].(remaining := l[0].remaining - qty);
            Match(f, l, inc, qty, mid) == MatchResult(l[0 := o], 0, mid + 1, FillOutputs(f, inc, o, qty, 0, mid))
  {
  }

  /** The total taken is the smaller of what was wanted and what crosses. */
  lemma {:induction false} MatchTotal(f: Flavor, l: seq<Order>, inc: Incoming, qty: Quantity, mid: OrderId)
    ensures var m := Match(f, l, inc, qty, mid);
            m.left <= qty && qty - m.left == Min(qty, Liquidity(l, inc))
    decreases |l|
  {
    if !Stops(l, inc, qty) {
      if l[0].remaining <= qty {
        FullFill(f, l, inc, qty, mid);
        MatchTotal(f, l[1..], inc, qty - l[0].remaining, mid + 1);
      } else {
        PartialFill(f, l, inc, qty, mid);
      }
    }
  }

  /**
   The messages: the j-th fill is against position j, for its share, at its own price, with the j-th
   match id; there is one fill per position with a share, in priority order, and nothing else.
   */
  lemma {:induction false} MatchMessages(f: Flavor, l: seq<Order>, inc: Incoming, qty: Quantity, mid: OrderId,
                                         nextId: OrderId)
    requires Queue(inc, l, nextId)
    ensures var m := Match(f, l, inc, qty, mid);
            var n := m.mid - mid;
            && 0 <= n <= |l| && |m.outs| == 3 * n
            && (forall j :: 0 <= j < |l| ==> (j < n <==> 0 < Share(l, inc, qty, j)))
    decreases |l|
  {
    hide Queue, Share, Crosses;
    var m := Match(f, l, inc, qty, mid);
    if Stops(l, inc, qty) {
      forall j | 0 <= j < |l| ensures Share(l, inc, qty, j) == 0 {
        NoShares(inc, l, qty, nextId, j);
      }
    } else {
      RestPositive(inc, l, nextId, 0);
      FrontShare(l, inc, qty);
      if l[0].remaining <= qty {
        FullFill(f, l, inc, qty, mid);
        QueueTail(inc, l, nextId);
        MatchMessages(f, l[1..], inc, qty - l[0].remaining, mid + 1, nextId);
        forall j | 0 < j < |l| ensures Share(l, inc, qty, j) == Share(l[1..], inc, qty - l[0].remaining, j - 1) {
          ShareTail(l, inc, qty, j);
        }
      } else {
        PartialFill(f, l, inc, qty, mid);
        forall j | 0 < j < |l| ensures Share(l, inc, qty, j) == 0 {
          ShareBehind(l, inc, qty, j);
        }
      }
    }
  }

  lemma {:induction false} MatchMessageAt(f: Flavor, l: seq<Order>, inc: Incoming, qty: Quantity, mid: OrderId,
                                          nextId: OrderId, j: nat)
    requires Queue(inc, l, nextId) && j < |l| && 0 < Share(l, inc, qty, j)
    ensures var m, share := Match(f, l, inc, qty, mid), Share(l, inc, qty, j);
            && share <= l[j].remaining && Ahead(l, j) + share <= qty
            && Crosses(inc.side, inc.price, l[j].price)
            && 3 * j + 3 <= |m.outs|
            && m.outs[3 * j..3 * j + 3] == FillOutputs(f, inc, l[j].(remaining := l[j].remaining - share), share,
                                                       qty - Ahead(l, j) - share, mid + j)
    decreases |l|
  {
    hide Queue, Share, Crosses, Match, Ahead, ExecutedResting, ExecutedAggressor, TradeUpdate;
    ShareFits(l, inc, qty, j);
    if Stops(l, inc, qty) {
      NoShares(inc, l, qty, nextId, j);
    } else if l[0].remaining <= qty {
      FullFill(f, l, inc, qty, mid);
      QueueTail(inc, l, nextId);
      if 0 < j {
        ShareTail(l, inc, qty, j);
        MatchMessageAt(f, l[1..], inc, qty - l[0].remaining, mid + 1, nextId, j - 1);
        var head := FillOutputs(f, inc, l[0].(remaining := 0), l[0].remaining, qty - l[0].remaining, mid);
        var tail := Match(f, l[1..], inc, qty - l[0].remaining, mid + 1).outs;
        assert (head + tail)[3 * j..3 * j + 3] == tail[3 * (j - 1)..3 * (j - 1) + 3];
      } else {
        FrontShare(l, inc, qty);
        AheadNothing(l);
      }
    } else {
      PartialFill(f, l, inc, qty, mid);
      if 0 < j {
        ShareBehind(l, inc, qty, j);
      } else {
        FrontShare(l, inc, qty);
        AheadNothing(l);
      }
    }
  }

  lemma AheadNothing(l: seq<Order>)
    ensures Ahead(l, 0) == 0
  {
  }
}
