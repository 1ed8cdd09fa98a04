/** Whole runs of the matching engine: one book per ticker, one match counter for all of them. */
module EngineRun {
  import opened Types
  import opened PriceTime
  import opened BookInvariants
  import opened Greedy

  datatype Engine = Engine(books: seq<Book>, mid: OrderId)

  datatype RunResult = RunResult(engine: Engine, outs: seq<Output>)

  function Boot(n: nat): Engine {
    Engine(seq(n, _ => EMPTY), 1)
  }

  function Process(f: Flavor, e: Engine, req: Request): RunResult
    requires req.ticker < |e.books|
  {
    var s := Step(f, e.books[req.ticker], e.mid, req);
    RunResult(Engine(e.books[req.ticker := s.book], s.mid), s.outs)
  }

  predicate InRange(n: nat, reqs: seq<Request>) {
    forall i :: 0 <= i < |reqs| ==> reqs[i].ticker < n
  }

  function Last<T>(s: seq<T>): T
    requires s != []
  {
    s[|s| - 1]
  }

  function Init<T>(s: seq<T>): seq<T>
    requires s != []
  {
    s[..|s| - 1]
  }

  function Run(f: Flavor, n: nat, reqs: seq<Request>): (r: RunResult)
    requires InRange(n, reqs)
    ensures |r.engine.books| == n
  {
    if reqs == [] then RunResult(Boot(n), [])
    else
      var r := Run(f, n, Init(reqs));
      var s := Process(f, r.engine, Last(reqs));
      RunResult(s.engine, r.outs + s.outs)
  }

  lemma RunSnoc(f: Flavor, n: nat, reqs: seq<Request>, req: Request)
    requires InRange(n, reqs) && req.ticker < n
    ensures InRange(n, reqs + [req])
    ensures var r := Run(f, n, reqs);
            var s := Process(f, r.engine, req);
            Run(f, n, reqs + [req]) == RunResult(s.engine, r.outs + s.outs)
  {
  }

  /** Every request finds its new key unused in its book. */
  ghost predicate FreshRun(f: Flavor, n: nat, reqs: seq<Request>)
    requires InRange(n, reqs)
  {
    reqs != [] ==>
      && FreshRun(f, n, Init(reqs))
      && Fresh(Run(f, n, Init(reqs)).engine.books[Last(reqs).ticker], Last(reqs))
  }

  /** Every request can be taken by a book that indexes its levels by price. */
  ghost predicate IndexableRun(n: nat, reqs: seq<Request>)
    requires InRange(n, reqs)
  {
    reqs != [] ==>
      && IndexableRun(n, Init(reqs))
      && Indexable(Run(VectorForm, n, Init(reqs)).engine.books[Last(reqs).ticker], Last(reqs))
  }

  /** A bound that does not look at the books: only good-till-cancel orders can come to rest. */
  predicate Bounded(req: Request) {
    req.action == CancelOrder || req.otype.FillAndKill? || req.price < MAX_PRICE_LEVELS
  }

  lemma {:induction false} BoundedIsIndexable(n: nat, reqs: seq<Request>)
    requires InRange(n, reqs) && forall i :: 0 <= i < |reqs| ==> Bounded(reqs[i])
    ensures IndexableRun(n, reqs)
  {
    if reqs != [] {
      BoundedIsIndexable(n, Init(reqs));
      assert Bounded(Last(reqs));
    }
  }

  /** Every reachable book of every run satisfies the book invariant, so it is never crossed. */
  lemma {:induction false} RunInv(f: Flavor, n: nat, reqs: seq<Request>, t: TickerId)
    requires InRange(n, reqs) && FreshRun(f, n, reqs) && t < n
    ensures BookInv(Run(f, n, reqs).engine.books[t])
  {
    if reqs != [] {
      var r, req := Run(f, n, Init(reqs)), Last(reqs);
      RunInv(f, n, Init(reqs), t);
      if req.ticker == t {
        StepInv(f, r.engine.books[t], r.engine.mid, req);
      }
    }
  }

  // ---------------------------------------------------------------- ids that are never reused are fresh

  type Key = (ClientId, OrderId)

  /** The key a request would bring into the book. */
  function Intro(req: Request): set<Key> {
    match req.action
    case NewOrder => {(req.client, req.coid)}
    case CancelOrder => {}
    case ModifyOrder => {(req.client, req.newCoid)}
  }

  function Intros(reqs: seq<Request>): set<Key> {
    if reqs == [] then {} else Intros(Init(reqs)) + Intro(Last(reqs))
  }

  /** No key is introduced twice. */
  ghost predicate NeverReused(reqs: seq<Request>) {
    forall i, j :: 0 <= i < j < |reqs| ==> Intro(reqs[i]) !! Intro(reqs[j])
  }

  ghost predicate KeysIn(l: seq<Order>, keys: set<Key>) {
    forall i :: 0 <= i < |l| ==> (l[i].client, l[i].coid) in keys
  }

  ghost predicate BookKeysIn(b: Book, keys: set<Key>) {
    KeysIn(b.bids, keys) && KeysIn(b.asks, keys)
  }

  lemma KeysInShrinks(rest: seq<Order>, l: seq<Order>, keys: set<Key>)
    requires Shrinks(rest, l) && KeysIn(l, keys)
    ensures KeysIn(rest, keys)
  {
  }

  lemma KeysInInsert(l: seq<Order>, o: Order, keys: set<Key>)
    requires KeysIn(l, keys) && (o.client, o.coid) in keys
    ensures KeysIn(Insert(l, o), keys)
  {
  }

  lemma SettleKeys(f: Flavor, b: Book, inc: Incoming, mid: OrderId, keys: set<Key>)
    requires BookKeysIn(b, keys) && (inc.client, inc.coid) in keys
    ensures var m := Match(f, b.Orders(inc.side.Opposite()), inc, inc.qty, mid);
            BookKeysIn(Settle(b, inc, m.rest, m.left), keys)
  {
    hide Match, KeysIn, Shrinks, PriceTime.Insert;
    var opp := inc.side.Opposite();
    var m := Match(f, b.Orders(opp), inc, inc.qty, mid);
    MatchShrinks(f, b.Orders(opp), inc, inc.qty, mid);
    KeysInShrinks(m.rest, b.Orders(opp), keys);
    KeysInInsert(b.Orders(inc.side), Resting(inc, m.left), keys);
  }

  lemma WithoutKeys(b: Book, req: Request, keys: set<Key>)
    requires BookKeysIn(b, keys) && Present(b, req.client, req.coid)
    ensures BookKeysIn(WithoutReplaced(b, req), keys)
  {
  }

  lemma CancelKeys(f: Flavor, b: Book, mid: OrderId, req: Request, keys: set<Key>)
    requires BookKeysIn(b, keys)
    ensures BookKeysIn(CancelStep(f, b, mid, req).book, keys)
  {
  }

  lemma StepKeys(f: Flavor, b: Book, mid: OrderId, req: Request, keys: set<Key>)
    requires BookKeysIn(b, keys)
    ensures BookKeysIn(Step(f, b, mid, req).book, keys + Intro(req))
  {
    hide Match, Settle, WithoutReplaced, CancelStep;
    var all := keys + Intro(req);
    assert BookKeysIn(b, all);
    match req.action
    case NewOrder =>
      SettleKeys(f, b.(nextId := b.nextId + 1), NewIncoming(b, req), mid, all);
    case CancelOrder =>
      CancelKeys(f, b, mid, req, all);
    case ModifyOrder =>
      if ReplaceAccepted(b, req) {
        WithoutKeys(b, req, all);
        SettleKeys(f, WithoutReplaced(b, req), ReplaceIncoming(b, req), mid, all);
      }
  }

  lemma UnknownKeyIsFresh(b: Book, req: Request, keys: set<Key>)
    requires BookKeysIn(b, keys) && Intro(req) !! keys
    ensures Fresh(b, req)
  {
  }

  lemma {:induction false} RunKeys(f: Flavor, n: nat, reqs: seq<Request>, t: TickerId)
    requires InRange(n, reqs) && t < n
    ensures BookKeysIn(Run(f, n, reqs).engine.books[t], Intros(reqs))
  {
    if reqs != [] {
      var r, req := Run(f, n, Init(reqs)), Last(reqs);
      RunKeys(f, n, Init(reqs), t);
      if req.ticker == t {
        StepKeys(f, r.engine.books[t], r.engine.mid, req, Intros(Init(reqs)));
      }
    }
  }

  lemma {:induction false} NewIntros(reqs: seq<Request>, x: Request)
    requires forall i :: 0 <= i < |reqs| ==> Intro(reqs[i]) !! Intro(x)
    ensures Intros(reqs) !! Intro(x)
  {
    if reqs != [] {
      NewIntros(Init(reqs), x);
    }
  }

  /** Requests whose ids are never reused meet the books' freshness precondition, in any order. */
  lemma {:induction false} NeverReusedIsFresh(f: Flavor, n: nat, reqs: seq<Request>)
    requires InRange(n, reqs) && NeverReused(reqs)
    ensures FreshRun(f, n, reqs)
  {
    if reqs != [] {
      NeverReusedIsFresh(f, n, Init(reqs));
      NewIntros(Init(reqs), Last(reqs));
      RunKeys(f, n, Init(reqs), Last(reqs).ticker);
      UnknownKeyIsFresh(Run(f, n, Init(reqs)).engine.books[Last(reqs).ticker], Last(reqs), Intros(Init(reqs)));
    }
  }
}
