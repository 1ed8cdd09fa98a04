/**
 The publisher and the streamer it owns, fed with the updates of one run of the engine. Publishing,
 consuming, replaying and serving snapshots may interleave in any way.
 */
module MarketFeed {
  import opened Types
  import opened PriceTime
  import opened EngineRun
  import opened Itch
  import opened Streamer
  import opened Publisher
  import opened Recovery
  import opened RecoveryRuns

  /** A reply that replays from..to of what was sent. */
  function ReplayReply(sent: seq<seq<Byte>>, last: nat, clientSeq: nat): seq<Byte>
    requires last <= |sent|
  {
    if clientSeq >= last then [STATUS_CURRENT]
    else if clientSeq + REPLAY_CAPACITY < last then [STATUS_GAP]
    else [STATUS_REPLAY] + Flatten(sent[clientSeq..last])
  }

  lemma PrefixUpdates(hist: seq<Sequenced>, pushed: seq<Sequenced>, us: seq<Update>)
    requires hist <= pushed && UpdatesIn(pushed) <= us
    ensures |hist| <= |pushed| <= |us| && UpdatesIn(hist) == us[..|hist|]
    ensures forall i :: 0 <= i < |pushed| ==> pushed[i].update == us[i]
  {
    assert forall i :: 0 <= i < |pushed| ==> UpdatesIn(pushed)[i] == us[i];
  }

  class Feed {
    const publisher: MarketDataPublisher
    const streamer: SnapshotStreamer
    ghost const f: Flavor
    ghost const n: nat
    ghost const reqs: seq<Request>

    /** The publisher is ahead of the streamer, and both are somewhere on the run's feed. */
    ghost predicate Valid()
      reads this, publisher, streamer, streamer.ring
    {
      && publisher.Valid() && streamer.Valid() && InRange(n, reqs)
      && publisher.skipped == 0 && |streamer.books| == n
      && UpdatesIn(publisher.pushed) <= FeedOf(f, n, reqs) && streamer.hist <= publisher.pushed
    }

    constructor (ghost f: Flavor, n: nat, ghost reqs: seq<Request>, wire: Frame -> seq<Byte>)
      requires InRange(n, reqs) && Layout(wire)
      ensures Valid() && this.f == f && this.n == n && this.reqs == reqs
      ensures publisher.pushed == [] && streamer.hist == []
      ensures fresh(publisher) && fresh(streamer) && fresh(streamer.ring)
    {
      this.f, this.n, this.reqs := f, n, reqs;
      publisher := new MarketDataPublisher(wire);
      streamer := new SnapshotStreamer(n);
      new;
      assert UpdatesIn([]) == [];
    }

    /** The publisher takes the next update of the run; every one of them has a frame. */
    method PublishNext(u: Update, now: nat)
      requires Valid() && |publisher.pushed| < |FeedOf(f, n, reqs)| && u == FeedOf(f, n, reqs)[|publisher.pushed|]
      modifies publisher
      ensures Valid() && |publisher.pushed| == old(|publisher.pushed|) + 1
      ensures publisher.sent ==
              old(publisher.sent) + [Datagram(|publisher.pushed|, publisher.wire(Encode(u, now).value))]
    {
      hide Encoded, FeedOf;
      FeedIsCarried(f, n, reqs);
      ghost var pushed := publisher.pushed;
      publisher.Publish(u, now);
      assert UpdatesIn(publisher.pushed) == UpdatesIn(pushed) + [u];
    }

    /** The streamer takes the next update from its queue; it is always one that it can take. */
    method ConsumeNext()
      requires Valid() && |streamer.hist| < |publisher.pushed|
      modifies streamer, streamer.ring
      ensures Valid() && streamer.hist == old(streamer.hist) + [publisher.pushed[old(|streamer.hist|)]]
    {
      hide FeedOf, RingHolds, CacheFresh;
      FeedIsCarried(f, n, reqs);
      PrefixUpdates(streamer.hist, publisher.pushed, FeedOf(f, n, reqs));
      var x := publisher.pushed[streamer.lastSeq];
      Contiguous(publisher.pushed, publisher.sent, publisher.nextSeq, streamer.lastSeq);
      streamer.Consume(x);
    }

    /** The reply replays exactly the datagrams first published under the missing numbers. */
    method Replay(clientSeq: nat) returns (reply: seq<Byte>)
      requires Valid()
      ensures |streamer.hist| <= |publisher.sent| && reply == ReplayReply(publisher.sent, |streamer.hist|, clientSeq)
    {
      hide Encoded, Consistent, RingHolds, CacheFresh;
      reply := streamer.ServeReplay(clientSeq);
      if clientSeq < |streamer.hist| {
        ReplayIsFeed(streamer.hist, publisher.pushed, publisher.sent, publisher.nextSeq, clientSeq, |streamer.hist|);
        assert streamer.hist[clientSeq..|streamer.hist|] == streamer.hist[clientSeq..];
      }
    }

    /**
     The snapshot decodes to the shadow books after the updates consumed so far. A client that follows the
     feed from there holds the shadow books ever after, unless a replace names a partially canceled order.
     */
    method Snapshot(ghost clock: nat -> nat) returns (frames: seq<Frame>)
      requires Valid()
      modifies streamer`snapshotBuf, streamer`dirty
      ensures Valid() && |streamer.hist| <= |FeedOf(f, n, reqs)|
      ensures var us, j := FeedOf(f, n, reqs), |streamer.hist|;
              Decode(frames) == Some(Itch.Snapshot(j, WireViews(ShadowsAfter(n, us[..j]))))
      ensures n <= HALF && FreshRun(f, n, reqs) && NarrowRun(reqs) && TraceableRun(f, n, reqs) ==>
        var us := FeedOf(f, n, reqs);
        && Carried(n, us)
        && forall i :: |streamer.hist| <= i <= |us| ==>
             FollowFeed(Decode(frames).value.views, us, clock, |streamer.hist|, i) == ViewsOf(ShadowsAfter(n, us[..i]))
    {
      hide Decode, RingHolds, WireViews, ViewsOf, FollowFeed, FreshRun, NarrowRun, TraceableRun, Carried;
      frames := streamer.ServeSnapshot();
      ghost var us := FeedOf(f, n, reqs);
      PrefixUpdates(streamer.hist, publisher.pushed, us);
      assert streamer.books == ShadowsAfter(n, us[..|streamer.hist|]);
      if n <= HALF && FreshRun(f, n, reqs) && NarrowRun(reqs) && TraceableRun(f, n, reqs) {
        RunRecovers(f, n, reqs, clock);
      }
    }
  }
}
