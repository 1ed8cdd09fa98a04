/**
 Recovery over the real feed: a client takes a snapshot at any moment and follows the frames after it.
 When it ends with the streamer's shadow books, and so, for faithful runs, with the order books.
 */
module Recovery {
  import opened Types
  import opened ShadowBook
  import opened ShadowAgreement
  import opened Itch
  import opened Streamer

  /** The shadow books of all tickers after some updates. */
  function ShadowsAfter(n: nat, us: seq<Update>): (books: seq<Shadow>)
    ensures |books| == n
  {
    seq(n, t requires 0 <= t < n => ApplyAll(map[], Seen(t, us)))
  }

  function ViewsOf(books: seq<Shadow>): Views {
    map t: TickerId | 0 <= t < |books| :: ViewOf(books[t])
  }

  /** Every update has a frame that loses nothing. */
  ghost predicate Carried(n: nat, us: seq<Update>) {
    forall k :: 0 <= k < |us| ==> Encodable(us[k].kind) && us[k].ticker < n && Fits(us[k])
  }

  /** The shadow book that update k finds. */
  function ShadowAt(n: nat, us: seq<Update>, k: nat): Shadow
    requires k < |us| && us[k].ticker < n
  {
    ShadowsAfter(n, us[..k])[us[k].ticker]
  }

  ghost predicate NewIdAt(n: nat, us: seq<Update>, k: nat)
    requires k < |us| && us[k].ticker < n
  {
    us[k].kind == Modify ==> us[k].newId !in ShadowAt(n, us, k)
  }

  ghost predicate FollowableAt(n: nat, us: seq<Update>, k: nat)
    requires k < |us| && us[k].ticker < n
  {
    Followable(ShadowAt(n, us, k), us[k])
  }

  ghost predicate NewIds(n: nat, us: seq<Update>)
    requires Carried(n, us)
  {
    forall k :: 0 <= k < |us| ==> NewIdAt(n, us, k)
  }

  ghost predicate AllFollowable(n: nat, us: seq<Update>)
    requires Carried(n, us)
  {
    forall k :: 0 <= k < |us| ==> FollowableAt(n, us, k)
  }

  /** What a client that held vs after update j holds after update i; clock gives the frames' timestamps. */
  function FollowFeed(vs: Views, us: seq<Update>, clock: nat -> nat, j: nat, i: nat): Views
    requires j <= i <= |us| && forall k :: 0 <= k < |us| ==> Encodable(us[k].kind)
    decreases i - j
  {
    if i == j then vs else FollowViews(FollowFeed(vs, us, clock, j, i - 1), Encode(us[i - 1], clock(i - 1)).value)
  }

  /** Whenever the snapshot was taken, and however long the feed was followed, the client holds the shadow books. */
  ghost predicate Recovers(n: nat, us: seq<Update>, clock: nat -> nat)
    requires Carried(n, us)
  {
    forall j, i :: 0 <= j <= i <= |us| ==>
      FollowFeed(WireViews(ShadowsAfter(n, us[..j])), us, clock, j, i) == ViewsOf(ShadowsAfter(n, us[..i]))
  }

  // ---------------------------------------------------------------- any feed

  lemma ShadowsSnoc(n: nat, us: seq<Update>, u: Update)
    requires u.ticker < n
    ensures var s := ShadowsAfter(n, us); ShadowsAfter(n, us + [u]) == s[u.ticker := Apply(s[u.ticker], u)]
  {
    forall t | 0 <= t < n
      ensures Seen(t, us + [u]) == Seen(t, us) + (if u.ticker == t then [u] else [])
      ensures ApplyAll(map[], Seen(t, us) + [u]) == Apply(ApplyAll(map[], Seen(t, us)), u)
      ensures Seen(t, us) + [] == Seen(t, us)
    {
      SeenConcat(t, us, [u]);
      assert [u][1..] == [];
      ApplyConcat(map[], Seen(t, us), [u]);
      ApplyOne(ApplyAll(map[], Seen(t, us)), u);
    }
  }

  /** One frame takes the client from one set of shadow books to the next exactly when it is followable. */
  lemma FeedStep(n: nat, us: seq<Update>, k: nat, time: nat)
    requires n <= HALF && Carried(n, us) && k < |us| && NewIdAt(n, us, k)
    ensures var vs, vs' := ViewsOf(ShadowsAfter(n, us[..k])), ViewsOf(ShadowsAfter(n, us[..k + 1]));
            FollowViews(vs, Encode(us[k], time).value) == vs' <==> FollowableAt(n, us, k)
  {
    hide Apply, FollowFrame, Followable;
    var u, s := us[k], ShadowAt(n, us, k);
    var t, vs := u.ticker, ViewsOf(ShadowsAfter(n, us[..k]));
    assert us[..k + 1] == us[..k] + [u];
    ShadowsSnoc(n, us[..k], u);
    FollowsExactly(s, u, time);
    var f := Encode(u, time).value;
    assert f.locate == t;
    assert ViewsOf(ShadowsAfter(n, us[..k + 1])) == vs[t := ViewOf(Apply(s, u))];
    assert FollowViews(vs, f) == vs[t := FollowFrame(ViewOf(s), f)];
    assert vs[t := ViewOf(Apply(s, u))][t] == ViewOf(Apply(s, u));
    assert vs[t := FollowFrame(ViewOf(s), f)][t] == FollowFrame(ViewOf(s), f);
  }

  lemma {:induction false} CatchUp(n: nat, us: seq<Update>, clock: nat -> nat, j: nat, i: nat)
    requires n <= HALF && Carried(n, us) && NewIds(n, us) && AllFollowable(n, us) && j <= i <= |us|
    ensures FollowFeed(ViewsOf(ShadowsAfter(n, us[..j])), us, clock, j, i) == ViewsOf(ShadowsAfter(n, us[..i]))
    decreases i - j
  {
    hide FollowViews, ViewsOf, ShadowsAfter;
    if j < i {
      CatchUp(n, us, clock, j, i - 1);
      assert NewIdAt(n, us, i - 1) && FollowableAt(n, us, i - 1);
      FeedStep(n, us, i - 1, clock(i - 1));
    }
  }

  ghost predicate EntriesFit(s: Shadow) {
    forall id :: id in s ==> Fits(s[id])
  }

  lemma {:induction false} ShadowFits(s: Shadow, us: seq<Update>)
    requires EntriesFit(s) && forall k :: 0 <= k < |us| ==> Fits(us[k])
    ensures EntriesFit(ApplyAll(s, us))
    decreases |us|
  {
    if us != [] {
      assert Fits(us[0]);
      assert EntriesFit(Apply(s, us[0]));
      ShadowFits(Apply(s, us[0]), us[1..]);
    }
  }

  lemma {:induction false} SeenFits(t: TickerId, us: seq<Update>)
    requires forall k :: 0 <= k < |us| ==> Fits(us[k])
    ensures forall k :: 0 <= k < |Seen(t, us)| ==> Fits(Seen(t, us)[k])
  {
    if us != [] {
      SeenFits(t, us[1..]);
    }
  }

  /** Snapshots lose nothing on the wire. */
  lemma SnapshotExact(n: nat, us: seq<Update>, j: nat)
    requires Carried(n, us) && j <= |us|
    ensures WireViews(ShadowsAfter(n, us[..j])) == ViewsOf(ShadowsAfter(n, us[..j]))
  {
    hide ApplyAll, WireView, ViewOf, Seen;
    forall t | 0 <= t < n
      ensures WireView(ApplyAll(map[], Seen(t, us[..j]))) == ViewOf(ApplyAll(map[], Seen(t, us[..j])))
    {
      SeenFits(t, us[..j]);
      ShadowFits(map[], Seen(t, us[..j]));
      WireExact(ApplyAll(map[], Seen(t, us[..j])));
    }
  }

  /** Recovery from every snapshot is exact if and only if every update is followable. */
  lemma RecoversExactly(n: nat, us: seq<Update>, clock: nat -> nat)
    requires n <= HALF && Carried(n, us) && NewIds(n, us)
    ensures Recovers(n, us, clock) <==> AllFollowable(n, us)
  {
    hide ViewsOf, WireViews, ShadowsAfter, FollowViews, FollowableAt, NewIdAt;
    forall j | 0 <= j <= |us|
      ensures WireViews(ShadowsAfter(n, us[..j])) == ViewsOf(ShadowsAfter(n, us[..j]))
    {
      SnapshotExact(n, us, j);
    }
    if AllFollowable(n, us) {
      forall j, i | 0 <= j <= i <= |us|
        ensures FollowFeed(WireViews(ShadowsAfter(n, us[..j])), us, clock, j, i) == ViewsOf(ShadowsAfter(n, us[..i]))
      {
        CatchUp(n, us, clock, j, i);
      }
    }
    if Recovers(n, us, clock) {
      forall k | 0 <= k < |us|
        ensures FollowableAt(n, us, k)
      {
        var vs := WireViews(ShadowsAfter(n, us[..k]));
        assert FollowFeed(vs, us, clock, k, k + 1) == ViewsOf(ShadowsAfter(n, us[..k + 1]));
        assert FollowFeed(vs, us, clock, k, k) == vs;
        FeedStep(n, us, k, clock(k));
      }
    }
  }
}
