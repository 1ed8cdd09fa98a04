/** The exchange end to end: from decoded client messages to a recovered market-data client. */
module Exchange {
  import opened Types
  import opened BookInvariants
  import opened EngineRun
  import opened ShadowBook
  import opened ShadowAgreement
  import opened Itch
  import opened Publisher
  import opened Recovery
  import opened RecoveryRuns
  import opened Tokens
  import opened Pipeline

  // ---------------------------------------------------------------- freshness survives the sequencer

  lemma {:induction false} TwoPlaces(a: seq<Request>, x: Request) returns (i: nat, j: nat)
    requires multiset(a)[x] >= 2
    ensures i < j < |a| && a[i] == x && a[j] == x
    decreases |a|
  {
    assert a == Init(a) + [Last(a)];
    if Last(a) == x {
      assert multiset(Init(a))[x] >= 1;
      i :| 0 <= i < |Init(a)| && Init(a)[i] == x;
      j := |a| - 1;
    } else {
      i, j := TwoPlaces(Init(a), x);
    }
  }

  lemma {:induction false} TwoInMultiset(b: seq<Request>, i: nat, j: nat)
    requires i < j < |b| && b[i] == b[j]
    ensures multiset(b)[b[i]] >= 2
  {
    assert b == b[..i] + [b[i]] + b[i + 1..j] + [b[j]] + b[j + 1..];
  }

  /** Whatever order the sequencer publishes them in, requests whose ids are never reused stay so. */
  lemma NeverReusedPermutes(a: seq<Request>, b: seq<Request>)
    requires NeverReused(a) && multiset(a) == multiset(b)
    ensures NeverReused(b)
  {
    forall i, j | 0 <= i < j < |b|
      ensures Intro(b[i]) !! Intro(b[j])
    {
      if b[i] == b[j] {
        TwoInMultiset(b, i, j);
        var p, q := TwoPlaces(a, b[i]);
      } else {
        assert b[i] in multiset(a) && b[j] in multiset(a);
        var p :| 0 <= p < |a| && a[p] == b[i];
        var q :| 0 <= q < |a| && a[q] == b[j];
        assert p < q || q < p;
      }
    }
  }

  // ---------------------------------------------------------------- the drained exchange

  /** What a drained pipeline has done. */
  lemma DrainedMeans(c: Config, s: State)
    requires Inv(c, s) && Drained(s)
    ensures multiset(s.processed) == multiset(s.accepted)
    ensures s.delivered == Responses(Run(c.flavor, c.tickers, s.processed).outs)
    ensures s.streamed == Updates(Run(c.flavor, c.tickers, s.processed).outs)
  {
    assert Sequence(s) == s.processed;
    assert s.sent + s.outs == s.sent;
    assert s.delivered + [] == s.delivered;
    assert s.streamed + s.strQ + s.updQ == s.streamed;
  }

  /** Sessions carry 32-bit prices and quantities. */
  lemma {:induction false} SessionNarrow(capacity: nat, inbound: seq<Inbound>, i: nat)
    requires i < |DecodeAll(Session([], []), capacity, inbound).reqs|
    ensures Narrow(DecodeAll(Session([], []), capacity, inbound).reqs[i])
  {
    var s := DecodeAll(Session([], []), capacity, Init(inbound));
    if i < |s.reqs| {
      SessionNarrow(capacity, Init(inbound), i);
    }
  }

  /** What holds of every accepted request holds of every processed one. */
  lemma ProcessedAdmitted(c: Config, s: State)
    requires Inv(c, s) && multiset(s.processed) == multiset(s.accepted)
    ensures Admitted(c, s.processed) && InRange(c.tickers, s.processed)
  {
    forall i | 0 <= i < |s.processed|
      ensures Admits(c, s.processed[i])
    {
      AdmittedMember(c, s.accepted, s.processed[i]);
    }
  }

  /**
   Every fair run of the exchange whose requests come from client sessions drains once input stops. Then
   the engine has processed exactly the accepted requests, in an order that met every book's preconditions;
   clients have been sent exactly its responses and the streamer exactly its updates; every book is sorted,
   positive and uncrossed; and every ticker's shadow book equals its order book if no request was unfaithful.
   */
  lemma ExchangeSettles(c: Config, run: nat -> State, sched: nat -> Thread, n: nat, capacity: nat,
                        inbound: seq<Inbound>)
    returns (m: nat)
    requires c.Valid() && Behaves(c, run, sched) && Fair(sched) && QuietFrom(run, n)
    requires run(n).accepted == DecodeAll(Session([], []), capacity, inbound).reqs
    ensures n <= m && Drained(run(m))
    ensures var s, reqs := run(m), run(m).processed;
            && InRange(c.tickers, reqs) && multiset(reqs) == multiset(run(n).accepted)
            && FreshRun(c.flavor, c.tickers, reqs)
            && (c.flavor.VectorForm? ==> IndexableRun(c.tickers, reqs))
            && s.delivered == Responses(Run(c.flavor, c.tickers, reqs).outs)
            && s.streamed == FeedOf(c.flavor, c.tickers, reqs)
            && forall t :: 0 <= t < c.tickers ==>
                 var b, shadow := Run(c.flavor, c.tickers, reqs).engine.books[t], ApplyAll(map[], Seen(t, s.streamed));
                 && BookInv(b)
                 && shadow == ShadowOf(c.flavor, c.tickers, reqs, t)
                 && (FaithfulRun(c.flavor, c.tickers, reqs) ==> Agrees(shadow, b))
  {
    hide Inv, Pipeline.Step, Agrees, FaithfulRun, BookInv;
    m := Drains(c, run, sched, n);
    var s := run(m);
    var reqs := s.processed;
    assert s.accepted == run(n).accepted;
    DrainedMeans(c, s);
    SessionNeverReuses(capacity, inbound);
    NeverReusedPermutes(s.accepted, reqs);
    ProcessedAdmitted(c, s);
    NeverReusedIsFresh(c.flavor, c.tickers, reqs);
    if c.flavor.VectorForm? {
      BoundedIsIndexable(c.tickers, reqs);
    }
    if FaithfulRun(c.flavor, c.tickers, reqs) {
      FaithfulAgrees(c, reqs);
    }
    forall t | 0 <= t < c.tickers
      ensures BookInv(Run(c.flavor, c.tickers, reqs).engine.books[t])
    {
      RunInv(c.flavor, c.tickers, reqs, t);
    }
  }

  lemma FaithfulAgrees(c: Config, reqs: seq<Request>)
    requires InRange(c.tickers, reqs) && FreshRun(c.flavor, c.tickers, reqs) && FaithfulRun(c.flavor, c.tickers, reqs)
    ensures forall t :: 0 <= t < c.tickers ==>
      Agrees(ShadowOf(c.flavor, c.tickers, reqs, t), Run(c.flavor, c.tickers, reqs).engine.books[t])
  {
    ShadowAgreement.RunAgrees(c.flavor, c.tickers, reqs);
  }

  // ---------------------------------------------------------------- the recovered client

  /**
   In such a run, whenever a market-data client took its snapshot and however long it followed the feed, it
   held the shadow books, if and only if no accepted replace named a partially canceled order. If no request
   was unfaithful, it ends with exactly the resting orders of every ticker.
   */
  lemma ExchangeRecovers(c: Config, run: nat -> State, sched: nat -> Thread, n: nat, capacity: nat,
                         inbound: seq<Inbound>, clock: nat -> nat)
    returns (m: nat)
    requires c.Valid() && c.tickers <= HALF && Behaves(c, run, sched) && Fair(sched) && QuietFrom(run, n)
    requires run(n).accepted == DecodeAll(Session([], []), capacity, inbound).reqs
    ensures n <= m && Drained(run(m)) && InRange(c.tickers, run(m).processed)
    ensures var us, reqs := run(m).streamed, run(m).processed;
            && Carried(c.tickers, us)
            && (Recovers(c.tickers, us, clock) <==> TraceableRun(c.flavor, c.tickers, reqs))
            && (FaithfulRun(c.flavor, c.tickers, reqs) ==>
                  forall j, t :: 0 <= j <= |us| && 0 <= t < c.tickers ==>
                    Recovered(c.tickers, us, clock, j, t, Run(c.flavor, c.tickers, reqs).engine.books[t]))
  {
    hide Pipeline.Step, FaithfulRun, TraceableRun, Recovers, Carried, Run, Recovered, FreshRun, IndexableRun;
    m := ExchangeSettles(c, run, sched, n, capacity, inbound);
    var us, reqs := run(m).streamed, run(m).processed;
    forall i | 0 <= i < |reqs|
      ensures Narrow(reqs[i])
    {
      assert reqs[i] in multiset(run(n).accepted);
      var k :| 0 <= k < |run(n).accepted| && run(n).accepted[k] == reqs[i];
      SessionNarrow(capacity, inbound, k);
    }
    RunRecovers(c.flavor, c.tickers, reqs, clock);
    if FaithfulRun(c.flavor, c.tickers, reqs) {
      forall j, t | 0 <= j <= |us| && 0 <= t < c.tickers
        ensures Recovered(c.tickers, us, clock, j, t, Run(c.flavor, c.tickers, reqs).engine.books[t])
      {
        FaithfulRecovers(c.flavor, c.tickers, reqs, clock, j, t);
      }
    }
  }
}
