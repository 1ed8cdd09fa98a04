/** The two production engines on the same queue of requests. */
module BothEngines {
  import opened Types
  import opened PriceTime
  import opened EngineRun
  import opened Equivalence
  import opened MatchingEngine
  import MapBook
  import VectorBook

  /** What is fresh for one engine is fresh for the other. */
  lemma {:induction false} FreshForBoth(n: nat, reqs: seq<Request>)
    requires InRange(n, reqs)
    ensures FreshRun(MapForm, n, reqs) <==> FreshRun(VectorForm, n, reqs)
  {
    hide Run;
    if reqs != [] {
      FreshForBoth(n, Init(reqs));
      RunAgrees(n, Init(reqs));
    }
  }

  /**
   A map engine and a vector engine that process the same requests hold the same books, have issued the same
   match ids and have sent the same executions.
   */
  method RunBoth(n: nat, queue: seq<Request>) returns (m: MapEngine, v: VectorEngine)
    requires InRange(n, queue) && FreshRun(MapForm, n, queue) && IndexableRun(n, queue)
    ensures m.Valid() && v.Valid() && |m.books| == |v.books| == n
    ensures m.Books() == v.Books() && m.port.nextMatchId == v.port.nextMatchId
    ensures Fills(m.port.outs) == Fills(v.port.outs)
  {
    hide Run, FreshRun, IndexableRun, Fills, EraseAll;
    hide MapBook.RepValid, MapBook.Abs, VectorBook.RepValid, VectorBook.Abs;
    FreshForBoth(n, queue);
    RunAgrees(n, queue);
    m := new MapEngine(n);
    v := new VectorEngine(n);
    BootSize(n);
    m.Drain(queue);
    v.Drain(queue);
  }

  lemma BootSize(n: nat)
    ensures |Boot(n).books| == n
  {
  }
}
