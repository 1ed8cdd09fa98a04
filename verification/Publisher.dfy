/** The market-data publisher: encode once, number, fan out, and hand the same bytes to the streamer. */
module Publisher {
  import opened Types
  import opened PriceTime
  import opened EngineRun
  import opened Itch
  import opened Streamer

  /** Every pushed update carries the bytes of its own datagram; numbers skip exactly the unencodable updates. */
  ghost predicate Numbered(pushed: seq<Sequenced>, sent: seq<seq<Byte>>, skipped: nat, nextSeq: nat) {
    && nextSeq == |pushed| + skipped + 1 && |sent| == |pushed|
    && (forall i :: 0 <= i < |pushed| ==> sent[i] == Datagram(pushed[i].seqNum, pushed[i].payload))
    && (forall i :: 0 <= i < |pushed| ==> i < pushed[i].seqNum <= i + 1 + skipped)
    && (forall i, j :: 0 <= i < j < |pushed| ==> pushed[i].seqNum < pushed[j].seqNum)
  }

  /** The byte layout of the frames: never empty, and never more than a slot of the replay ring holds. */
  ghost predicate Layout(wire: Frame -> seq<Byte>) {
    forall f: Frame :: 0 < |wire(f)| <= ITCH_MAX_MSG_SIZE
  }

  /** Every payload is the encoding of its own update, at the time it was published. */
  ghost predicate Encoded(wire: Frame -> seq<Byte>, pushed: seq<Sequenced>, times: seq<nat>) {
    && |times| == |pushed|
    && (forall i :: 0 <= i < |pushed| ==>
          && Encodable(pushed[i].update.kind)
          && pushed[i].payload == wire(Encode(pushed[i].update, times[i]).value))
  }

  class MarketDataPublisher {
    const wire: Frame -> seq<Byte>
    var nextSeq: nat
    var pushed: seq<Sequenced>      // everything pushed to the streamer's queue
    ghost var sent: seq<seq<Byte>>  // every datagram fanned out
    ghost var times: seq<nat>       // when each of them was encoded
    ghost var skipped: nat

    ghost predicate Valid()
      reads this
    {
      Layout(wire) && Numbered(pushed, sent, skipped, nextSeq) && Encoded(wire, pushed, times)
    }

    constructor (wire: Frame -> seq<Byte>)
      requires Layout(wire)
      ensures Valid() && pushed == [] && skipped == 0 && this.wire == wire
    {
      this.wire := wire;
      nextSeq, pushed, sent, times, skipped := 1, [], [], [], 0;
    }

    /** One turn of the run loop: encode once, number, fan out, hand the same bytes to the streamer. */
    method Publish(u: Update, now: nat)
      requires Valid()
      modifies this
      ensures Valid()
      ensures Encodable(u.kind) ==>
        var payload := wire(Encode(u, now).value);
        && pushed == old(pushed) + [Sequenced(u, old(nextSeq), payload)] && times == old(times) + [now]
        && sent == old(sent) + [Datagram(old(nextSeq), payload)] && skipped == old(skipped)
      ensures !Encodable(u.kind) ==> pushed == old(pushed) && sent == old(sent) && skipped == old(skipped) + 1
    {
      var frame := Encode(u, now);
      var payload: seq<Byte> := if frame.Some? then wire(frame.value) else [];
      if |payload| > 0 {
        sent := sent + [Datagram(nextSeq, payload)];
        pushed := pushed + [Sequenced(u, nextSeq, payload)];
        times := times + [now];
      } else {
        skipped := skipped + 1;
      }
      nextSeq := nextSeq + 1;
    }
  }

  /** With nothing skipped, the streamer sees 1, 2, 3, ... */
  lemma Contiguous(pushed: seq<Sequenced>, sent: seq<seq<Byte>>, nextSeq: nat, i: nat)
    requires Numbered(pushed, sent, 0, nextSeq) && i < |pushed|
    ensures pushed[i].seqNum == i + 1
  {
  }

  /** What the streamer's history replays is what the publisher sent under the same numbers, byte for byte. */
  lemma {:induction false} ReplayIsFeed(hist: seq<Sequenced>, pushed: seq<Sequenced>, sent: seq<seq<Byte>>,
                                        nextSeq: nat,
                                        i: nat, j: nat)
    requires Numbered(pushed, sent, 0, nextSeq) && hist <= pushed && i <= j <= |hist|
    ensures Datagrams(hist[i..j]) == Flatten(sent[i..j])
    decreases j
  {
    hide Datagram, BigEndian;
    var w, x := hist[i..j], sent[i..j];
    if i < j {
      ReplayIsFeed(hist, pushed, sent, nextSeq, i, j - 1);
      assert w[..|w| - 1] == hist[i..j - 1] && x[..|x| - 1] == sent[i..j - 1];
      assert w[|w| - 1] == pushed[j - 1] && x[|x| - 1] == sent[j - 1];
    }
  }

  // ---------------------------------------------------------------- the engine never makes it skip

  ghost predicate OnFeed(n: nat, outs: seq<Output>) {
    forall i :: 0 <= i < |outs| && outs[i].Public? ==> Encodable(outs[i].upd.kind) && outs[i].upd.ticker < n
  }

  lemma {:induction false} MatchOnFeed(n: nat, f: Flavor, opp: seq<Order>, inc: Incoming, left: Quantity, mid: OrderId)
    requires inc.ticker < n
    ensures OnFeed(n, Match(f, opp, inc, left, mid).outs)
    decreases |opp|, left
  {
    if !Stops(opp, inc, left) {
      var s := FillFront(f, opp, inc, left, mid);
      MatchOnFeed(n, f, s.rest, inc, s.left, s.mid);
    }
  }

  lemma StepOnFeed(n: nat, f: Flavor, b: Book, mid: OrderId, req: Request)
    requires req.ticker < n
    ensures OnFeed(n, Step(f, b, mid, req).outs)
  {
    hide Match;
    match req.action
    case NewOrder =>
      var inc := NewIncoming(b, req);
      MatchOnFeed(n, f, b.Orders(inc.side.Opposite()), inc, inc.qty, mid);
    case CancelOrder =>
    case ModifyOrder =>
      if ReplaceAccepted(b, req) {
        var inc := ReplaceIncoming(b, req);
        MatchOnFeed(n, f, WithoutReplaced(b, req).Orders(inc.side.Opposite()), inc, inc.qty, mid);
      }
  }

  /** Every public update of every run is encodable and about a known ticker, so sequence numbers have no gaps. */
  lemma {:induction false} RunOnFeed(f: Flavor, n: nat, reqs: seq<Request>)
    requires InRange(n, reqs)
    ensures OnFeed(n, Run(f, n, reqs).outs)
  {
    if reqs != [] {
      RunOnFeed(f, n, Init(reqs));
      var e := Run(f, n, Init(reqs)).engine;
      StepOnFeed(n, f, e.books[Last(reqs).ticker], e.mid, Last(reqs));
    }
  }

  /** The updates of a run, as the publisher receives them. */
  function FeedOf(f: Flavor, n: nat, reqs: seq<Request>): seq<Update>
    requires InRange(n, reqs)
  {
    Updates(Run(f, n, reqs).outs)
  }

  lemma FeedIsCarried(f: Flavor, n: nat, reqs: seq<Request>)
    requires InRange(n, reqs)
    ensures forall k :: 0 <= k < |FeedOf(f, n, reqs)| ==>
      Encodable(FeedOf(f, n, reqs)[k].kind) && FeedOf(f, n, reqs)[k].ticker < n
  {
    RunOnFeed(f, n, reqs);
    forall k | 0 <= k < |FeedOf(f, n, reqs)|
      ensures Encodable(FeedOf(f, n, reqs)[k].kind) && FeedOf(f, n, reqs)[k].ticker < n
    {
      var i := UpdateSource(Run(f, n, reqs).outs, k);
    }
  }
}
