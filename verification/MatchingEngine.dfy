/** The matching engine: dispatch to one book per ticker, all sharing one port to the outside. */
module MatchingEngine {
  import opened Types
  import opened PriceTime
  import opened EnginePort
  import opened Greedy
  import opened EngineRun
  import MapBook
  import VectorBook

  class MapEngine {
    const port: Port
    const books: seq<MapBook.Book>

    ghost predicate Valid()
      reads this, books
    {
      && (forall i, j :: 0 <= i < j < |books| ==> books[i] != books[j])
      && (forall i :: 0 <= i < |books| ==> books[i].port == port && books[i].Valid())
    }

    ghost function Books(): seq<Book>
      reads this, books
      requires Valid()
    {
      seq(|books|, i requires 0 <= i < |books| && books[i].Valid() reads books => books[i].Contents())
    }

    ghost function Abs(): Engine
      reads this, books, port
      requires Valid()
    {
      Engine(Books(), port.nextMatchId)
    }

    constructor (n: nat)
      ensures Valid() && Abs() == Boot(n) && port.outs == [] && fresh(port) && fresh(books)
    {
      hide MapBook.RepValid, MapBook.Abs;
      var p := new Port();
      var bs: seq<MapBook.Book> := [];
      for i := 0 to n
        invariant |bs| == i && fresh(p) && fresh(bs) && p.nextMatchId == 1 && p.outs == []
        invariant forall j, k :: 0 <= j < k < |bs| ==> bs[j] != bs[k]
        invariant forall j :: 0 <= j < |bs| ==> bs[j].port == p && bs[j].Valid() && bs[j].Contents() == EMPTY
      {
        var b := new MapBook.Book(p);
        bs := bs + [b];
      }
      port, books := p, bs;
    }

    method ProcessClientRequest(req: Request)
      requires Valid() && req.ticker < |books| && Fresh(books[req.ticker].Contents(), req)
      modifies books[req.ticker], port
      ensures Valid()
      ensures var r := Process(MapForm, old(Abs()), req);
              Abs() == r.engine && port.outs == old(port.outs) + r.outs
    {
      hide MapBook.RepValid, MapBook.Abs, Step, Fresh;
      var book := books[req.ticker];
      Dispatch(book, req);
      assert book.Did(Step(MapForm, old(Books())[req.ticker], old(port.nextMatchId), req));
      forall i | 0 <= i < |books|
        ensures books[i].Valid() && books[i].Contents() == Process(MapForm, old(Abs()), req).engine.books[i]
      {
        assert i != req.ticker ==> books[i].Contents() == old(Books())[i];
      }
      assert Books() == Process(MapForm, old(Abs()), req).engine.books;
    }

    static method Dispatch(book: MapBook.Book, req: Request)
      requires book.Valid() && Fresh(book.Contents(), req)
      modifies book, book.port
      ensures book.Did(Step(MapForm, old(book.Contents()), old(book.port.nextMatchId), req))
    {
      hide MapBook.RepValid, MapBook.Abs, AddStep, CancelStep, ReplaceStep;
      match req.action
      case NewOrder => book.AddOrder(req);
      case CancelOrder => book.CancelOrder(req);
      case ModifyOrder =>
        assert req.(action := ModifyOrder) == req;
        book.ReplaceOrder(req);
    }

    /** The run loop over a finite request queue: one request at a time, in queue order. */
    method Drain(queue: seq<Request>)
      requires Valid() && Abs() == Boot(|books|) && port.outs == []
      requires InRange(|books|, queue) && FreshRun(MapForm, |books|, queue)
      modifies books, port
      ensures Valid() && Abs() == Run(MapForm, |books|, queue).engine
      ensures port.outs == Run(MapForm, |books|, queue).outs
    {
      hide Process, MapBook.RepValid, MapBook.Abs, Fresh;
      for i := 0 to |queue|
        invariant Valid() && Abs() == Run(MapForm, |books|, queue[..i]).engine
        invariant port.outs == Run(MapForm, |books|, queue[..i]).outs
      {
        FreshPrefix(MapForm, |books|, queue, i + 1);
        assert Init(queue[..i + 1]) == queue[..i] && Last(queue[..i + 1]) == queue[i];
        assert Abs().books[queue[i].ticker] == books[queue[i].ticker].Contents();
        ProcessClientRequest(queue[i]);
      }
      assert queue[..|queue|] == queue;
    }
  }

  class VectorEngine {
    const port: Port
    const books: seq<VectorBook.Book>

    ghost predicate Valid()
      reads this, books
    {
      && (forall i, j :: 0 <= i < j < |books| ==> books[i] != books[j])
      && (forall i :: 0 <= i < |books| ==> books[i].port == port && books[i].Valid())
    }

    ghost function Books(): seq<Book>
      reads this, books
      requires Valid()
    {
      seq(|books|, i requires 0 <= i < |books| && books[i].Valid() reads books => books[i].Contents())
    }

    ghost function Abs(): Engine
      reads this, books, port
      requires Valid()
    {
      Engine(Books(), port.nextMatchId)
    }

    constructor (n: nat)
      ensures Valid() && Abs() == Boot(n) && port.outs == [] && fresh(port) && fresh(books)
    {
      hide VectorBook.RepValid, VectorBook.Abs;
      var p := new Port();
      var bs: seq<VectorBook.Book> := [];
      for i := 0 to n
        invariant |bs| == i && fresh(p) && fresh(bs) && p.nextMatchId == 1 && p.outs == []
        invariant forall j, k :: 0 <= j < k < |bs| ==> bs[j] != bs[k]
        invariant forall j :: 0 <= j < |bs| ==> bs[j].port == p && bs[j].Valid() && bs[j].Contents() == EMPTY
      {
        var b := new VectorBook.Book(p);
        bs := bs + [b];
      }
      port, books := p, bs;
    }

    method ProcessClientRequest(req: Request)
      requires Valid() && req.ticker < |books| && Fresh(books[req.ticker].Contents(), req)
      requires Indexable(books[req.ticker].Contents(), req)
      modifies books[req.ticker], port
      ensures Valid()
      ensures var r := Process(VectorForm, old(Abs()), req);
              Abs() == r.engine && port.outs == old(port.outs) + r.outs
    {
      hide VectorBook.RepValid, VectorBook.Abs, Step, Fresh, Indexable;
      var book := books[req.ticker];
      Dispatch(book, req);
      assert book.Did(Step(VectorForm, old(Books())[req.ticker], old(port.nextMatchId), req));
      forall i | 0 <= i < |books|
        ensures books[i].Valid() && books[i].Contents() == Process(VectorForm, old(Abs()), req).engine.books[i]
      {
        assert i != req.ticker ==> books[i].Contents() == old(Books())[i];
      }
      assert Books() == Process(VectorForm, old(Abs()), req).engine.books;
    }

    static method Dispatch(book: VectorBook.Book, req: Request)
      requires book.Valid() && Fresh(book.Contents(), req) && Indexable(book.Contents(), req)
      modifies book, book.port
      ensures book.Did(Step(VectorForm, old(book.Contents()), old(book.port.nextMatchId), req))
    {
      hide VectorBook.RepValid, VectorBook.Abs, AddStep, CancelStep, ReplaceStep, Lodges;
      match req.action
      case NewOrder =>
        assert req.(action := NewOrder) == req;
        book.AddOrder(req);
      case CancelOrder => book.CancelOrder(req);
      case ModifyOrder =>
        assert req.(action := ModifyOrder) == req;
        book.ReplaceOrder(req);
    }

    /** The run loop over a finite request queue: one request at a time, in queue order. */
    method Drain(queue: seq<Request>)
      requires Valid() && Abs() == Boot(|books|) && port.outs == []
      requires InRange(|books|, queue) && FreshRun(VectorForm, |books|, queue) && IndexableRun(|books|, queue)
      modifies books, port
      ensures Valid() && Abs() == Run(VectorForm, |books|, queue).engine
      ensures port.outs == Run(VectorForm, |books|, queue).outs
    {
      hide Process, VectorBook.RepValid, VectorBook.Abs, Fresh, Indexable;
      for i := 0 to |queue|
        invariant Valid() && Abs() == Run(VectorForm, |books|, queue[..i]).engine
        invariant port.outs == Run(VectorForm, |books|, queue[..i]).outs
      {
        FreshPrefix(VectorForm, |books|, queue, i + 1);
        IndexablePrefix(|books|, queue, i + 1);
        assert Init(queue[..i + 1]) == queue[..i] && Last(queue[..i + 1]) == queue[i];
        assert Abs().books[queue[i].ticker] == books[queue[i].ticker].Contents();
        ProcessClientRequest(queue[i]);
      }
      assert queue[..|queue|] == queue;
    }
  }

  lemma {:induction false} IndexablePrefix(n: nat, reqs: seq<Request>, k: nat)
    requires InRange(n, reqs) && IndexableRun(n, reqs) && k <= |reqs|
    ensures IndexableRun(n, reqs[..k])
    decreases |reqs|
  {
    if k == |reqs| {
      assert reqs[..k] == reqs;
    } else {
      IndexablePrefix(n, Init(reqs), k);
      assert Init(reqs)[..k] == reqs[..k];
    }
  }

  lemma {:induction false} FreshPrefix(f: Flavor, n: nat, reqs: seq<Request>, k: nat)
    requires InRange(n, reqs) && FreshRun(f, n, reqs) && k <= |reqs|
    ensures FreshRun(f, n, reqs[..k])
    decreases |reqs|
  {
    if k == |reqs| {
      assert reqs[..k] == reqs;
    } else {
      FreshPrefix(f, n, Init(reqs), k);
      assert Init(reqs)[..k] == reqs[..k];
    }
  }
}
