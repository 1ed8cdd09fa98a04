/**
 The four threads over bounded queues: the gateway retains and retries, the engine blocks on its
 outputs, the publisher blocks on the streamer's queue. What is safe in every run, and why every fair
 run drains once input stops.
 */
module Pipeline {
  import opened Types
  import opened PriceTime
  import opened EngineRun
  import opened Sequencer

  datatype Config = Config(flavor: Flavor, tickers: nat, reqCap: nat, respCap: nat, updCap: nat, strCap: nat) {
    predicate Valid() {
      0 < reqCap && 0 < respCap && 0 < updCap && 0 < strCap
    }
  }

  datatype Thread = Gateway | Engine | Publisher | Streamer

  /** Where the gateway's loop stands: drain responses, retry, receive, publish the batch just received. */
  datatype Phase = Draining | Publishing | Receiving | Flushing

  datatype State = State(
    phase: Phase, pending: seq<Stamped>, reqQ: seq<Request>,
    busy: bool, outs: seq<Output>,           // the engine's current request, and what it has yet to send
    respQ: seq<Response>, updQ: seq<Update>, strQ: seq<Update>,
    // histories
    accepted: seq<Request>, processed: seq<Request>, sent: seq<Output>,
    delivered: seq<Response>, streamed: seq<Update>)

  const START := State(Draining, [], [], false, [], [], [], [], [], [], [], [], [])

  // ---------------------------------------------------------------- steps

  ghost predicate Arranged(p: seq<Stamped>, q: seq<Stamped>) {
    ByTime(q) && multiset(q) == multiset(p)
  }

  ghost predicate PublishOrLeave(c: Config, s: State, s': State, next: Phase) {
    if s.pending != [] && |s.reqQ| < c.reqCap
    then s' == s.(pending := s.pending[1..], reqQ := s.reqQ + [s.pending[0].req])
    else s' == s.(phase := next)
  }

  /** What clients may send: nothing checks the ticker, nor the price that the vector book indexes by. */
  predicate Admits(c: Config, req: Request) {
    req.ticker < c.tickers && (c.flavor.VectorForm? ==> Bounded(req))
  }

  ghost predicate Admitted(c: Config, reqs: seq<Request>) {
    forall i :: 0 <= i < |reqs| ==> Admits(c, reqs[i])
  }

  ghost predicate GatewayStep(c: Config, s: State, s': State) {
    match s.phase
    case Draining =>
      if s.respQ != [] then s' == s.(respQ := s.respQ[1..], delivered := s.delivered + [s.respQ[0]])
      else s' == s.(phase := Publishing, pending := s'.pending) && Arranged(s.pending, s'.pending)
    case Publishing => PublishOrLeave(c, s, s', Receiving)
    case Receiving =>
      exists xs: seq<Stamped>, q: seq<Stamped> ::
        && Admitted(c, Requests(xs)) && Arranged(s.pending + xs, q)
        && s' == s.(phase := Flushing, pending := q, accepted := s.accepted + Requests(xs))
    case Flushing => PublishOrLeave(c, s, s', Draining)
  }

  ghost predicate Sends(c: Config, s: State, s': State)
    requires s.outs != []
  {
    var rest := s.(outs := s.outs[1..], sent := s.sent + [s.outs[0]]);
    match s.outs[0]
    case Private(r) => s' == if |s.respQ| < c.respCap then rest.(respQ := s.respQ + [r]) else s
    case Public(u) => s' == if |s.updQ| < c.updCap then rest.(updQ := s.updQ + [u]) else s
  }

  ghost predicate EngineStep(c: Config, s: State, s': State) {
    if s.busy then
      if s.outs == [] then s.reqQ != [] && s' == s.(busy := false, reqQ := s.reqQ[1..])
      else Sends(c, s, s')
    else if s.reqQ == [] then s' == s
    else
      && InRange(c.tickers, s.processed) && s.reqQ[0].ticker < c.tickers
      && s' == s.(busy := true, processed := s.processed + [s.reqQ[0]],
                  outs := Process(c.flavor, Run(c.flavor, c.tickers, s.processed).engine, s.reqQ[0]).outs)
  }

  ghost predicate PublisherStep(c: Config, s: State, s': State) {
    s' == if s.updQ != [] && |s.strQ| < c.strCap
          then s.(updQ := s.updQ[1..], strQ := s.strQ + [s.updQ[0]]) else s
  }

  ghost predicate StreamerStep(s: State, s': State) {
    s' == if s.strQ != [] then s.(strQ := s.strQ[1..], streamed := s.streamed + [s.strQ[0]]) else s
  }

  ghost predicate Step(c: Config, t: Thread, s: State, s': State) {
    match t
    case Gateway => GatewayStep(c, s, s')
    case Engine => EngineStep(c, s, s')
    case Publisher => PublisherStep(c, s, s')
    case Streamer => StreamerStep(s, s')
  }

  // ---------------------------------------------------------------- safety

  /** Every request that has entered the request queue, in queue order. */
  function Sequence(s: State): seq<Request> {
    (if s.busy && s.processed != [] then Init(s.processed) else s.processed) + s.reqQ
  }

  /** No request is lost or duplicated on its way in. */
  ghost predicate RequestsInv(c: Config, s: State) {
    && Admitted(c, s.accepted)
    && multiset(s.accepted) == multiset(Sequence(s)) + multiset(Requests(s.pending))
    && (s.busy ==> s.processed != [] && s.reqQ != [] && Last(s.processed) == s.reqQ[0])
    && (!s.busy ==> s.outs == [])
  }

  /** What was sent, and is to be sent, is what the engine computed; nothing is lost or reordered on its way out. */
  ghost predicate OutputsInv(c: Config, s: State) {
    && InRange(c.tickers, s.processed)
    && s.sent + s.outs == Run(c.flavor, c.tickers, s.processed).outs
    && s.delivered + s.respQ == Responses(s.sent)
    && s.streamed + s.strQ + s.updQ == Updates(s.sent)
  }

  ghost predicate Inv(c: Config, s: State) {
    RequestsInv(c, s) && OutputsInv(c, s)
  }

  lemma StartInv(c: Config)
    ensures Inv(c, START)
  {
  }

  lemma AdmittedMember(c: Config, reqs: seq<Request>, r: Request)
    requires Admitted(c, reqs) && r in multiset(reqs)
    ensures Admits(c, r)
  {
  }

  lemma FirstRequest(pending: seq<Stamped>)
    requires pending != []
    ensures Requests(pending) == [pending[0].req] + Requests(pending[1..])
  {
  }

  lemma PublishKeeps(c: Config, s: State, s': State, next: Phase)
    requires Inv(c, s) && PublishOrLeave(c, s, s', next)
    ensures Inv(c, s')
  {
    hide OutputsInv, Run, Requests;
    if s.pending != [] && |s.reqQ| < c.reqCap {
      FirstRequest(s.pending);
      assert Sequence(s') == Sequence(s) + [s.pending[0].req];
    }
    SameOutputs(c, s, s');
  }

  /** The outgoing half does not look at the incoming queues. */
  lemma SameOutputs(c: Config, s: State, s': State)
    requires OutputsInv(c, s)
    requires s'.processed == s.processed && s'.sent == s.sent && s'.outs == s.outs && s'.respQ == s.respQ
    requires s'.delivered == s.delivered && s'.streamed == s.streamed && s'.strQ == s.strQ && s'.updQ == s.updQ
    ensures OutputsInv(c, s')
  {
  }

  /** The incoming half does not look at the outgoing queues. */
  lemma SameRequests(c: Config, s: State, s': State)
    requires RequestsInv(c, s) && s'.busy == s.busy && (s.outs == [] ==> s'.outs == [])
    requires s'.accepted == s.accepted && s'.processed == s.processed && s'.reqQ == s.reqQ
    requires multiset(Requests(s'.pending)) == multiset(Requests(s.pending))
    ensures RequestsInv(c, s')
  {
  }

  lemma DrainKeeps(c: Config, s: State, s': State)
    requires Inv(c, s) && s.phase == Draining && GatewayStep(c, s, s')
    ensures Inv(c, s')
  {
    hide RequestsInv, Run, Responses, Updates;
    if s.respQ != [] {
      assert s'.delivered + s'.respQ == s.delivered + s.respQ;
    } else {
      RequestsPermute(s'.pending, s.pending);
    }
    SameRequests(c, s, s');
  }

  lemma ReceiveKeeps(c: Config, s: State, s': State)
    requires Inv(c, s) && s.phase == Receiving && GatewayStep(c, s, s')
    ensures Inv(c, s')
  {
    hide OutputsInv;
    var xs: seq<Stamped>, q: seq<Stamped> :|
      && Admitted(c, Requests(xs)) && Arranged(s.pending + xs, q)
      && s' == s.(phase := Flushing, pending := q, accepted := s.accepted + Requests(xs));
    RequestsPermute(q, s.pending + xs);
    RequestsConcat(s.pending, xs);
    SameOutputs(c, s, s');
  }

  lemma SendOutputs(c: Config, s: State, s': State)
    requires OutputsInv(c, s) && s.outs != [] && Sends(c, s, s')
    ensures OutputsInv(c, s')
  {
    hide Run, Responses, Updates;
    var o := s.outs[0];
    assert s.sent + [o] + s.outs[1..] == s.sent + s.outs;
    ResponsesConcat(s.sent, [o]);
    UpdatesConcat(s.sent, [o]);
    OneOutput(o);
    if s' != s {
      match o
      case Private(r) =>
        assert s.delivered + s.respQ + [r] == s'.delivered + s'.respQ;
      case Public(u) =>
        assert s.streamed + s.strQ + s.updQ + [u] == s'.streamed + s'.strQ + s'.updQ;
    }
  }

  lemma OneOutput(o: Output)
    ensures Responses([o]) == AsResponse(o) && Updates([o]) == AsUpdate(o)
  {
  }

  lemma SendKeeps(c: Config, s: State, s': State)
    requires Inv(c, s) && s.busy && s.outs != [] && Sends(c, s, s')
    ensures Inv(c, s')
  {
    SendOutputs(c, s, s');
    hide RequestsInv, OutputsInv;
    SameRequests(c, s, s');
  }

  lemma TakeKeeps(c: Config, s: State, s': State)
    requires Inv(c, s) && !s.busy && s.reqQ != [] && EngineStep(c, s, s')
    ensures Inv(c, s')
  {
    RunSnoc(c.flavor, c.tickers, s.processed, s.reqQ[0]);
    assert Init(s'.processed) == s.processed && Last(s'.processed) == s.reqQ[0];
    assert s.sent + [] == s.sent;
    assert s'.sent + s'.outs == Run(c.flavor, c.tickers, s'.processed).outs;
  }

  lemma FinishKeeps(c: Config, s: State, s': State)
    requires Inv(c, s) && s.busy && s.outs == [] && EngineStep(c, s, s')
    ensures Inv(c, s')
  {
    hide OutputsInv, Run, Process, Requests;
    assert s.processed == Init(s.processed) + [Last(s.processed)];
    assert s.reqQ == [s.reqQ[0]] + s.reqQ[1..];
    assert Sequence(s') == Sequence(s);
    SameOutputs(c, s, s');
  }

  lemma StepKeeps(c: Config, t: Thread, s: State, s': State)
    requires Inv(c, s) && Step(c, t, s, s')
    ensures Inv(c, s')
  {
    hide RequestsInv, OutputsInv, Sends;
    match t
    case Gateway =>
      match s.phase {
        case Draining => DrainKeeps(c, s, s');
        case Publishing => PublishKeeps(c, s, s', Receiving);
        case Receiving => ReceiveKeeps(c, s, s');
        case Flushing => PublishKeeps(c, s, s', Draining);
      }
    case Engine =>
      if s.busy && s.outs != [] {
        SendKeeps(c, s, s');
      } else if s.busy {
        FinishKeeps(c, s, s');
      } else if s.reqQ != [] {
        TakeKeeps(c, s, s');
      }
    case Publisher =>
      FeedKeeps(c, s, s');
    case Streamer =>
      FeedKeeps(c, s, s');
  }

  lemma FeedKeeps(c: Config, s: State, s': State)
    requires Inv(c, s) && (PublisherStep(c, s, s') || StreamerStep(s, s'))
    ensures Inv(c, s')
  {
    hide RequestsInv, Run, Responses, Updates;
    assert s'.streamed + s'.strQ + s'.updQ == s.streamed + s.strQ + s.updQ;
    SameRequests(c, s, s');
  }

  /** The engine can always take the request at the head of its queue. */
  lemma HeadInRange(c: Config, s: State)
    requires Inv(c, s) && !s.busy && s.reqQ != []
    ensures s.reqQ[0].ticker < c.tickers
  {
    assert Sequence(s)[|s.processed|] == s.reqQ[0];
    AdmittedMember(c, s.accepted, s.reqQ[0]);
  }

  // ---------------------------------------------------------------- progress

  predicate Drained(s: State) {
    s.pending == [] && s.reqQ == [] && !s.busy && s.respQ == [] && s.updQ == [] && s.strQ == []
  }

  /** The engine can move something right now. */
  predicate EngineCan(c: Config, s: State) {
    if s.busy then s.outs == [] || (if s.outs[0].Private? then |s.respQ| < c.respCap else |s.updQ| < c.updCap)
    else s.reqQ != []
  }

  /** A thread that is certain to bring the pipeline closer to empty: the furthest downstream that can move. */
  function Helpful(c: Config, s: State): Thread {
    if s.strQ != [] then Streamer
    else if s.updQ != [] then Publisher
    else if EngineCan(c, s) then Thread.Engine
    else Gateway
  }

  /** Work still to enter the engine; a pending request must still be queued, taken and finished. */
  function Inward(s: State): int {
    3 * |s.pending| + 2 * |s.reqQ| - if s.busy then 1 else 0
  }

  /** Messages still on their way out. */
  function Outward(s: State): nat {
    4 * |s.outs| + |s.respQ| + 3 * |s.updQ| + 2 * |s.strQ|
  }

  /** How many more turns until the gateway, when all depends on it, moves something. */
  function Turns(c: Config, s: State): nat {
    if Helpful(c, s) != Gateway then 0
    else if s.respQ != [] then
      match s.phase
      case Draining => 0
      case Flushing => 1
      case Receiving => 2
      case Publishing => 3
    else if s.phase == Draining || s.phase == Receiving then 1 else 0
  }

  ghost predicate Closer(c: Config, s: State, s': State) {
    || Inward(s') < Inward(s)
    || (Inward(s') == Inward(s) && Outward(s') < Outward(s))
    || (Inward(s') == Inward(s) && Outward(s') == Outward(s) && Turns(c, s') < Turns(c, s))
  }

  ghost predicate Level(c: Config, s: State, s': State) {
    && Inward(s') == Inward(s) && Outward(s') == Outward(s) && Turns(c, s') == Turns(c, s)
    && Helpful(c, s') == Helpful(c, s)
  }

  /** The shape facts that progress needs. */
  ghost predicate Sane(s: State) {
    (s.busy ==> s.reqQ != []) && (!s.busy ==> s.outs == [])
  }

  lemma Arrangement(p: seq<Stamped>, q: seq<Stamped>)
    requires Arranged(p, q)
    ensures |p| == |q|
  {
    LengthsAgree(p, q);
  }

  lemma RequestsEmpty(a: seq<Request>, xs: seq<Stamped>)
    requires a + Requests(xs) == a
    ensures xs == []
  {
  }

  /** A turn of the gateway, with no new input, never moves away from empty; it moves closer if it is helpful. */
  lemma GatewayProgress(c: Config, s: State, s': State)
    requires c.Valid() && Sane(s) && GatewayStep(c, s, s') && s'.accepted == s.accepted && !Drained(s)
    ensures Closer(c, s, s') || (Level(c, s, s') && Helpful(c, s) != Gateway)
  {
    hide Arranged;
    match s.phase
    case Draining =>
      if s.respQ == [] {
        Arrangement(s.pending, s'.pending);
      }
    case Publishing =>
    case Receiving =>
      var xs: seq<Stamped>, q: seq<Stamped> :|
        && Admitted(c, Requests(xs)) && Arranged(s.pending + xs, q)
        && s' == s.(phase := Flushing, pending := q, accepted := s.accepted + Requests(xs));
      RequestsEmpty(s.accepted, xs);
      Arrangement(s.pending + xs, q);
    case Flushing =>
  }

  lemma OtherProgress(c: Config, t: Thread, s: State, s': State)
    requires c.Valid() && Sane(s) && t != Gateway && Step(c, t, s, s') && !Drained(s)
    ensures Closer(c, s, s') || (s' == s && Helpful(c, s) != t)
  {
  }

  /** A step without new input moves closer to empty, or leaves the helpful thread helpful and did not run it. */
  lemma StepProgress(c: Config, t: Thread, s: State, s': State)
    requires c.Valid() && Inv(c, s) && Step(c, t, s, s') && s'.accepted == s.accepted && !Drained(s)
    ensures Closer(c, s, s') || (Level(c, s, s') && t != Helpful(c, s))
  {
    hide OutputsInv;
    if t == Gateway {
      GatewayProgress(c, s, s');
    } else {
      OtherProgress(c, t, s, s');
    }
  }

  // ---------------------------------------------------------------- no deadlock

  /** The helpful thread always has a step, and that step brings the pipeline closer to empty. */
  lemma NoDeadlock(c: Config, s: State) returns (s': State)
    requires c.Valid() && Inv(c, s) && !Drained(s)
    ensures Step(c, Helpful(c, s), s, s') && Closer(c, s, s')
  {
    match Helpful(c, s) {
      case Streamer =>
        s' := s.(strQ := s.strQ[1..], streamed := s.streamed + [s.strQ[0]]);
      case Publisher =>
        s' := s.(updQ := s.updQ[1..], strQ := s.strQ + [s.updQ[0]]);
      case Engine =>
        s' := EngineMove(c, s);
      case Gateway =>
        s' := GatewayMove(c, s);
    }
    StepProgress(c, Helpful(c, s), s, s');
  }

  lemma EngineMove(c: Config, s: State) returns (s': State)
    requires Inv(c, s) && EngineCan(c, s)
    ensures EngineStep(c, s, s') && s'.accepted == s.accepted
  {
    if !s.busy {
      HeadInRange(c, s);
      s' := s.(busy := true, processed := s.processed + [s.reqQ[0]],
               outs := Process(c.flavor, Run(c.flavor, c.tickers, s.processed).engine, s.reqQ[0]).outs);
    } else if s.outs == [] {
      s' := s.(busy := false, reqQ := s.reqQ[1..]);
    } else {
      var rest := s.(outs := s.outs[1..], sent := s.sent + [s.outs[0]]);
      s' := match s.outs[0]
            case Private(r) => rest.(respQ := s.respQ + [r])
            case Public(u) => rest.(updQ := s.updQ + [u]);
    }
  }

  lemma GatewayMove(c: Config, s: State) returns (s': State)
    requires Inv(c, s)
    ensures GatewayStep(c, s, s') && s'.accepted == s.accepted
  {
    match s.phase
    case Draining =>
      if s.respQ != [] {
        s' := s.(respQ := s.respQ[1..], delivered := s.delivered + [s.respQ[0]]);
      } else {
        var q := SomeArrangement(s.pending);
        s' := s.(phase := Publishing, pending := q);
      }
    case Publishing =>
      s' := PublishMove(c, s, Receiving);
    case Receiving =>
      var q := SomeArrangement(s.pending);
      s' := s.(phase := Flushing, pending := q);
      var xs: seq<Stamped> := [];
      assert s.pending + xs == s.pending && s.accepted + Requests(xs) == s.accepted;
      assert Admitted(c, Requests(xs)) && Arranged(s.pending + xs, q);
      assert s' == s.(phase := Flushing, pending := q, accepted := s.accepted + Requests(xs));
    case Flushing =>
      s' := PublishMove(c, s, Draining);
  }

  lemma PublishMove(c: Config, s: State, next: Phase) returns (s': State)
    ensures PublishOrLeave(c, s, s', next) && s'.accepted == s.accepted
  {
    if s.pending != [] && |s.reqQ| < c.reqCap {
      s' := s.(pending := s.pending[1..], reqQ := s.reqQ + [s.pending[0].req]);
    } else {
      s' := s.(phase := next);
    }
  }

  lemma {:induction false} SomeArrangement(p: seq<Stamped>) returns (q: seq<Stamped>)
    ensures Arranged(p, q)
    decreases |p|
  {
    q := [];
    if p != [] {
      var x := p[0];
      var r := SomeArrangement(p[1..]);
      var k := Place(r, x);
      q := r[..k] + [x] + r[k..];
      InsertByTime(r, k, x);
      assert p == [x] + p[1..];
      assert r == r[..k] + r[k..];
    }
  }

  lemma {:induction false} Place(r: seq<Stamped>, x: Stamped) returns (k: nat)
    requires ByTime(r)
    ensures k <= |r| && (forall j :: 0 <= j < k ==> r[j].time <= x.time) && (k < |r| ==> x.time <= r[k].time)
  {
    k := 0;
    if r != [] && r[0].time <= x.time {
      var k' := Place(r[1..], x);
      k := k' + 1;
      assert forall j :: 1 <= j < k ==> r[j] == r[1..][j - 1];
    }
  }

  // ---------------------------------------------------------------- every fair run drains

  ghost predicate Behaves(c: Config, run: nat -> State, sched: nat -> Thread) {
    run(0) == START && forall n: nat :: Step(c, sched(n), run(n), run(n + 1))
  }

  ghost predicate RunsAfter(sched: nat -> Thread, t: Thread, n: nat) {
    exists m: nat :: n <= m && sched(m) == t
  }

  /** Every thread keeps getting turns. */
  ghost predicate Fair(sched: nat -> Thread) {
    forall t: Thread, n: nat :: RunsAfter(sched, t, n)
  }

  /** No request is received at or after time n. */
  ghost predicate QuietFrom(run: nat -> State, n: nat) {
    forall m: nat :: n <= m ==> run(m).accepted == run(n).accepted
  }

  lemma {:induction false} RunKeepsInv(c: Config, run: nat -> State, sched: nat -> Thread, n: nat)
    requires Behaves(c, run, sched)
    ensures Inv(c, run(n))
  {
    if n == 0 {
      StartInv(c);
    } else {
      RunKeepsInv(c, run, sched, n - 1);
      assert Step(c, sched(n - 1), run(n - 1), run(n - 1 + 1));
      StepKeeps(c, sched(n - 1), run(n - 1), run(n));
    }
  }

  lemma InwardPositive(c: Config, s: State)
    requires Inv(c, s)
    ensures 0 <= Inward(s)
  {
  }

  /** Waiting for the helpful thread's turn at time k, then starting over closer to empty. */
  lemma {:induction false} DrainsBy(c: Config, run: nat -> State, sched: nat -> Thread, n: nat, k: nat) returns (m: nat)
    requires c.Valid() && Behaves(c, run, sched) && Fair(sched) && QuietFrom(run, n)
    requires n <= k && sched(k) == Helpful(c, run(n))
    ensures n <= m && Drained(run(m))
    decreases if Inward(run(n)) < 0 then 0 else Inward(run(n)), Outward(run(n)), Turns(c, run(n)), k - n
  {
    hide Step, Inv, Inward, Outward, Turns, Helpful, Drained;
    m := n;
    if !Drained(run(n)) {
      RunKeepsInv(c, run, sched, n);
      RunKeepsInv(c, run, sched, n + 1);
      InwardPositive(c, run(n));
      InwardPositive(c, run(n + 1));
      assert Step(c, sched(n), run(n), run(n + 1));
      assert run(n + 1).accepted == run(n).accepted;
      assert QuietFrom(run, n + 1);
      StepProgress(c, sched(n), run(n), run(n + 1));
      var k': nat := k;
      if Closer(c, run(n), run(n + 1)) {
        var t := Helpful(c, run(n + 1));
        assert RunsAfter(sched, t, n + 1);
        k' :| n + 1 <= k' && sched(k') == t;
      }
      m := DrainsBy(c, run, sched, n + 1, k');
    }
  }

  /** Every fair run drains once input stops, whatever the queue capacities. */
  lemma Drains(c: Config, run: nat -> State, sched: nat -> Thread, n: nat) returns (m: nat)
    requires c.Valid() && Behaves(c, run, sched) && Fair(sched) && QuietFrom(run, n)
    ensures n <= m && Drained(run(m)) && Inv(c, run(m))
  {
    var t := Helpful(c, run(n));
    assert RunsAfter(sched, t, n);
    var k: nat :| n <= k && sched(k) == t;
    m := DrainsBy(c, run, sched, n, k);
    RunKeepsInv(c, run, sched, m);
  }
}
