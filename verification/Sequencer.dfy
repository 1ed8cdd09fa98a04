/** The gateway's timestamp sequencer, pushing into a bounded queue that the engine drains concurrently. */
module Sequencer {
  import opened Types

  /** A single-producer queue of positive capacity. */
  class RequestQueue {
    const capacity: nat
    var items: seq<Request>
    ghost var log: seq<Request>  // everything ever pushed, in order

    ghost predicate Valid()
      reads this
    {
      0 < capacity && |items| <= capacity && |items| <= |log| && items == log[|log| - |items|..]
    }

    constructor (capacity: nat)
      requires 0 < capacity
      ensures Valid() && items == [] && log == [] && this.capacity == capacity
    {
      this.capacity, items, log := capacity, [], [];
    }

    method Push(r: Request) returns (ok: bool)
      requires Valid()
      modifies this
      ensures Valid() && ok == (|old(items)| < capacity)
      ensures items == (if ok then old(items) + [r] else old(items))
      ensures log == (if ok then old(log) + [r] else old(log))
    {
      ok := |items| < capacity;
      if ok {
        items, log := items + [r], log + [r];
      }
    }

    /** Whatever the consumer thread takes in the meantime. */
    method ConsumerPops()
      requires Valid()
      modifies this`items
      ensures Valid() && |items| <= |old(items)|
    {
      var n :| 0 <= n <= |items|;
      items := items[n..];
    }
  }

  datatype Stamped = Stamped(time: nat, req: Request)

  const BLANK := Stamped(0, Request(NewOrder, 0, 0, 0, 0, 0, 0, GoodTillCancel, Buy, []))

  ghost predicate ByTime(s: seq<Stamped>) {
    forall i, j :: 0 <= i < j < |s| ==> s[i].time <= s[j].time
  }

  function Requests(s: seq<Stamped>): seq<Request> {
    seq(|s|, i requires 0 <= i < |s| => s[i].req)
  }

  lemma RequestsConcat(a: seq<Stamped>, b: seq<Stamped>)
    ensures Requests(a + b) == Requests(a) + Requests(b)
  {
  }

  lemma RequestsGrow(a: seq<Stamped>, n: nat)
    requires n < |a|
    ensures Requests(a[..n + 1]) == Requests(a[..n]) + [a[n].req]
  {
    assert a[..n + 1] == a[..n] + [a[n]];
    RequestsConcat(a[..n], [a[n]]);
  }

  lemma LogGrows(log: seq<Request>, a: seq<Stamped>, n: nat)
    requires n < |a|
    ensures log + Requests(a[..n]) + [a[n].req] == log + Requests(a[..n + 1])
  {
    RequestsGrow(a, n);
  }

  lemma TakeOut(b: seq<Stamped>, k: nat)
    requires k < |b|
    ensures multiset(b) == multiset(b[..k] + b[k + 1..]) + multiset{b[k]}
    ensures multiset(Requests(b)) == multiset(Requests(b[..k] + b[k + 1..])) + multiset{b[k].req}
  {
    hide Requests;
    assert b == b[..k + 1] + b[k + 1..] && b[..k + 1] == b[..k] + [b[k]];
    RequestsConcat(b[..k + 1], b[k + 1..]);
    RequestsGrow(b, k);
    RequestsConcat(b[..k], b[k + 1..]);
  }

  lemma Occurs(b: seq<Stamped>, x: Stamped, a: seq<Stamped>) returns (k: nat)
    requires multiset(a) == multiset(b) && x in a
    ensures k < |b| && b[k] == x
  {
    assert x in multiset(b);
    k :| 0 <= k < |b| && b[k] == x;
  }

  lemma {:induction false} RequestsPermute(a: seq<Stamped>, b: seq<Stamped>)
    requires multiset(a) == multiset(b)
    ensures multiset(Requests(a)) == multiset(Requests(b))
    decreases |a|
  {
    hide Requests;
    LengthsAgree(a, b);
    if a == [] {
      assert b == a;
    } else {
      var k := Occurs(b, a[0], a);
      var a', b' := a[..0] + a[1..], b[..k] + b[k + 1..];
      TakeOut(a, 0);
      TakeOut(b, k);
      SameRest(multiset(a'), multiset(b'), a[0]);
      RequestsPermute(a', b');
    }
  }

  lemma SameRest(m: multiset<Stamped>, m': multiset<Stamped>, x: Stamped)
    requires m + multiset{x} == m' + multiset{x}
    ensures m == m'
  {
    assert m == m + multiset{x} - multiset{x} && m' == m' + multiset{x} - multiset{x};
  }

  /** Any arrangement in time order; equal times may come out either way. */
  method SortByTime(a: seq<Stamped>) returns (s: seq<Stamped>)
    ensures ByTime(s) && multiset(s) == multiset(a)
  {
    hide ByTime;
    s := [];
    NothingByTime();
    for i := 0 to |a|
      invariant ByTime(s) && multiset(s) == multiset(a[..i])
    {
      var k := 0;
      while k < |s| && s[k].time <= a[i].time
        invariant k <= |s| && forall j :: 0 <= j < k ==> s[j].time <= a[i].time
      {
        k := k + 1;
      }
      InsertByTime(s, k, a[i]);
      InsertOne(s, k, a[i]);
      PrefixGrows(a, i);
      s := s[..k] + [a[i]] + s[k..];
    }
    assert a[..|a|] == a;
  }

  lemma PrefixGrows(a: seq<Stamped>, i: nat)
    requires i < |a|
    ensures multiset(a[..i + 1]) == multiset(a[..i]) + multiset{a[i]}
  {
    assert a[..i + 1] == a[..i] + [a[i]];
  }

  lemma NothingByTime()
    ensures ByTime([])
  {
  }

  lemma InsertByTime(s: seq<Stamped>, k: nat, x: Stamped)
    requires ByTime(s) && k <= |s|
    requires (forall j :: 0 <= j < k ==> s[j].time <= x.time) && (k < |s| ==> x.time <= s[k].time)
    ensures ByTime(s[..k] + [x] + s[k..])
  {
  }

  lemma InsertOne(s: seq<Stamped>, k: nat, x: Stamped)
    requires k <= |s|
    ensures multiset(s[..k] + [x] + s[k..]) == multiset(s) + multiset{x}
  {
    assert s == s[..k] + s[k..];
  }

  /** Nothing that arrived is lost or duplicated: it was published, or it is pending. */
  ghost predicate Accounted(arrivals: seq<Stamped>, published: seq<Stamped>, pending: seq<Stamped>, log: seq<Request>) {
    multiset(arrivals) == multiset(published) + multiset(pending) && log == Requests(published)
  }

  class FifoSequencer {
    const queue: RequestQueue
    var slots: seq<Stamped>
    var size: nat
    var sorted: bool
    ghost var arrivals: seq<Stamped>   // everything ever added, in order
    ghost var published: seq<Stamped>  // everything ever pushed, in order

    ghost function Pending(): seq<Stamped>
      reads this
      requires size <= |slots|
    {
      slots[..size]
    }

    ghost predicate Valid()
      reads this, queue
    {
      && queue.Valid() && size <= |slots| && 0 < |slots|
      && (sorted ==> ByTime(Pending()))
      && Accounted(arrivals, published, Pending(), queue.log)
    }

    lemma NothingLost()
      requires Valid()
      ensures multiset(Requests(arrivals)) == multiset(queue.log) + multiset(Requests(Pending()))
    {
      hide Requests;
      RequestsPermute(arrivals, published + Pending());
      RequestsConcat(published, Pending());
    }

    constructor (queue: RequestQueue, maxPending: nat)
      requires queue.Valid() && queue.log == []
      ensures Valid() && this.queue == queue && arrivals == [] && size == 0
    {
      this.queue := queue;
      slots := seq(if maxPending < 1 then 1 else maxPending, _ => BLANK);
      size, sorted, arrivals, published := 0, true, [], [];
    }

    method AddToPending(time: nat, req: Request) returns (ok: bool)
      requires Valid()
      modifies this
      ensures Valid() && ok == (old(size) < |old(slots)|) && slots != [] && |slots| == |old(slots)|
      ensures ok ==> Pending() == old(Pending()) + [Stamped(time, req)]
      ensures !ok ==> Pending() == old(Pending())
      ensures arrivals == old(arrivals) + (if ok then [Stamped(time, req)] else []) && published == old(published)
    {
      if size >= |slots| {
        return false;
      }
      hide Requests, Accounted;
      ghost var before := Pending();
      OneMorePending(arrivals, published, before, queue.log, Stamped(time, req));
      slots := slots[size := Stamped(time, req)];
      size := size + 1;
      sorted := false;
      arrivals := arrivals + [Stamped(time, req)];
      assert Pending() == before + [Stamped(time, req)];
      return true;
    }

    /** Publishes a prefix of what is pending in time order and keeps the rest in time order. */
    method PublishPendingOrders() returns (ghost s: seq<Stamped>, ghost n: nat)
      requires Valid()
      modifies this`slots, this`size, this`sorted, this`published, queue
      ensures Valid() && |slots| == |old(slots)|
      ensures ByTime(s) && multiset(s) == multiset(old(Pending())) && n <= |s|
      ensures published == old(published) + s[..n] && Pending() == s[n..]
      ensures queue.log == old(queue.log) + Requests(s[..n])
      ensures n < |s| ==> |queue.items| == queue.capacity
      ensures old(sorted) ==> s == old(Pending())
    {
      hide Requests, ByTime, Accounted;
      s, n := Pending(), 0;
      if size == 0 {
        assert s == [] && s[..0] == [] && s[0..] == [];
        NothingPending();
        return;
      }
      if !sorted {
        SortPending();
      }
      s := Pending();
      ghost var queue0 := queue.log;
      var count := PushPrefix();
      n := count;
      assert slots[..n] == s[..n];
      Split(arrivals, published, s, queue0, n);
      published := published + s[..n];
      if count != 0 {
        Shift(count);
      }
    }

    method SortPending()
      requires Valid()
      modifies this`slots, this`sorted
      ensures Valid() && sorted && |slots| == |old(slots)| && multiset(Pending()) == multiset(old(Pending()))
    {
      hide Requests, Accounted;
      var arranged := SortByTime(slots[..size]);
      LengthsAgree(arranged, slots[..size]);
      Rearranged(arrivals, published, slots[..size], arranged, queue.log);
      slots := arranged + slots[size..];
      sorted := true;
      assert Pending() == arranged;
    }

    /** Moves the retained requests to the front; the slots behind them keep what they held. */
    method Shift(count: nat)
      requires count <= size <= |slots|
      modifies this`slots, this`size
      ensures |slots| == |old(slots)| && size == old(size) - count && Pending() == old(Pending())[count..]
    {
      slots := slots[count..size] + slots[size - count..];
      size := size - count;
    }

    /** The push loop: stops at the first refusal. */
    method PushPrefix() returns (count: nat)
      requires queue.Valid() && size <= |slots|
      modifies queue
      ensures queue.Valid() && count <= size
      ensures queue.log == old(queue.log) + Requests(slots[..count])
      ensures count < size ==> |queue.items| == queue.capacity
    {
      count := 0;
      hide Requests;
      NothingPending();
      assert slots[..0] == [];
      while count < size
        invariant queue.Valid() && count <= size
        invariant queue.log == old(queue.log) + Requests(slots[..count])
      {
        queue.ConsumerPops();
        LogGrows(old(queue.log), slots, count);
        var ok := queue.Push(slots[count].req);
        if !ok {
          break;
        }
        count := count + 1;
      }
    }

    method GrowPending()
      requires Valid()
      modifies this`slots
      ensures Valid() && |slots| == 2 * |old(slots)| && Pending() == old(Pending())
    {
      ghost var before := Pending();
      slots := slots + seq(|slots|, _ => BLANK);
      assert Pending() == before;
    }

    /** The overflow ladder: publish, retry, grow, retry; the last retry cannot fail. */
    method Retain(time: nat, req: Request)
      requires Valid()
      modifies this, queue
      ensures Valid() && arrivals == old(arrivals) + [Stamped(time, req)]
    {
      hide Requests, ByTime, Accounted;
      var added := AddToPending(time, req);
      if !added {
        ghost var s, n := PublishPendingOrders();
        added := AddToPending(time, req);
        if !added {
          GrowPending();
          added := AddToPending(time, req);
          assert added;
        }
      }
    }
  }

  lemma NothingPending()
    ensures Requests([]) == [] && ByTime([])
  {
  }

  /** Moving a prefix from pending to published loses and duplicates nothing. */
  lemma Split(arrivals: seq<Stamped>, published: seq<Stamped>, s: seq<Stamped>, log: seq<Request>, n: nat)
    requires Accounted(arrivals, published, s, log) && n <= |s|
    ensures Accounted(arrivals, published + s[..n], s[n..], log + Requests(s[..n]))
    ensures ByTime(s) ==> ByTime(s[n..])
  {
    assert s == s[..n] + s[n..];
    RequestsConcat(published, s[..n]);
  }

  lemma Rearranged(arrivals: seq<Stamped>, published: seq<Stamped>, s: seq<Stamped>, s': seq<Stamped>,
                   log: seq<Request>)
    requires Accounted(arrivals, published, s, log) && multiset(s) == multiset(s')
    ensures Accounted(arrivals, published, s', log)
  {
  }

  lemma OneMorePending(arrivals: seq<Stamped>, published: seq<Stamped>, s: seq<Stamped>, log: seq<Request>, x: Stamped)
    requires Accounted(arrivals, published, s, log)
    ensures Accounted(arrivals + [x], published, s + [x], log)
  {
  }

  lemma LengthsAgree(a: seq<Stamped>, b: seq<Stamped>)
    requires multiset(a) == multiset(b)
    ensures |a| == |b|
  {
    assert |a| == |multiset(a)| == |multiset(b)| == |b|;
  }
}
