/** The snapshot streamer: shadow books, the replay ring and the cached snapshot. */
module Streamer {
  import opened Types
  import opened ShadowBook
  import opened ShadowAgreement
  import opened Itch

  const REPLAY_CAPACITY: nat := 8192
  const ITCH_MAX_MSG_SIZE: nat := 40

  const STATUS_CURRENT: Byte := 67  // 'C'
  const STATUS_GAP: Byte := 78      // 'N'
  const STATUS_REPLAY: Byte := 82   // 'R'

  /** An update with its sequence number and the payload that went out on the feed. */
  datatype Sequenced = Sequenced(update: Update, seqNum: nat, payload: seq<Byte>)

  /** One ring slot: the prefix, a fixed buffer, and how much of the buffer is meant. */
  datatype ReplayEntry = ReplayEntry(prefix: seq<Byte>, buffer: seq<Byte>, len: nat)

  ghost predicate Holds(e: ReplayEntry, x: Sequenced) {
    e.prefix == BigEndian(x.seqNum, 8) && e.len == |x.payload| <= |e.buffer| && e.buffer[..e.len] == x.payload
  }

  function UpdatesIn(hist: seq<Sequenced>): seq<Update> {
    seq(|hist|, i requires 0 <= i < |hist| => hist[i].update)
  }

  /** The datagrams numbered from+1, from+2, ..., end to end. */
  function Datagrams(hist: seq<Sequenced>): seq<Byte> {
    if hist == [] then []
    else Datagrams(hist[..|hist| - 1]) + Datagram(hist[|hist| - 1].seqNum, hist[|hist| - 1].payload)
  }

  /** Entries are filed under their own id and ticker. */
  ghost predicate Filed(s: Shadow, t: TickerId) {
    forall id :: id in s ==> s[id].moid == id && s[id].ticker == t
  }

  lemma {:induction false} ApplyFiled(s: Shadow, t: TickerId, us: seq<Update>)
    requires Filed(s, t) && forall i :: 0 <= i < |us| ==> us[i].ticker == t
    ensures Filed(ApplyAll(s, us), t)
    decreases |us|
  {
    if us != [] {
      assert us[0].ticker == t;
      assert Filed(Apply(s, us[0]), t);
      ApplyFiled(Apply(s, us[0]), t, us[1..]);
    }
  }

  lemma {:induction false} SeenFiled(t: TickerId, us: seq<Update>)
    ensures forall i :: 0 <= i < |Seen(t, us)| ==> Seen(t, us)[i].ticker == t
  {
    if us != [] {
      SeenFiled(t, us[1..]);
    }
  }

  /** What a snapshot of these shadow books must decode to. */
  function WireViews(books: seq<Shadow>): Views {
    map t: TickerId | 0 <= t < |books| :: WireView(books[t])
  }

  ghost predicate Consistent(books: seq<Shadow>, lastSeq: nat, hist: seq<Sequenced>) {
    && lastSeq == |hist|
    && (forall i :: 0 <= i < |hist| ==> hist[i].seqNum == i + 1)
    && (forall t :: 0 <= t < |books| ==> books[t] == ApplyAll(map[], Seen(t, UpdatesIn(hist))))
  }

  /** The last REPLAY_CAPACITY updates are in the ring, each at its own slot. */
  ghost predicate RingHolds(ring: seq<ReplayEntry>, hist: seq<Sequenced>) {
    && |ring| == REPLAY_CAPACITY
    && (forall i :: 0 <= i < |ring| ==> |ring[i].buffer| == ITCH_MAX_MSG_SIZE)
    && (forall i :: 0 <= i < |hist| && |hist| <= i + REPLAY_CAPACITY ==> Holds(ring[i % REPLAY_CAPACITY], hist[i]))
  }

  /** A clean cache describes the present. */
  ghost predicate CacheFresh(buf: seq<Frame>, dirty: bool, books: seq<Shadow>, lastSeq: nat) {
    buf != [] && !dirty ==> Decode(buf) == Some(Snapshot(lastSeq, WireViews(books)))
  }

  lemma AppendConsistent(books: seq<Shadow>, hist: seq<Sequenced>, x: Sequenced)
    requires Consistent(books, |hist|, hist) && x.seqNum == |hist| + 1 && x.update.ticker < |books|
    ensures Consistent(books[x.update.ticker := Apply(books[x.update.ticker], x.update)], |hist| + 1, hist + [x])
  {
    var books' := books[x.update.ticker := Apply(books[x.update.ticker], x.update)];
    assert UpdatesIn(hist + [x]) == UpdatesIn(hist) + [x.update];
    forall t | 0 <= t < |books|
      ensures books'[t] == ApplyAll(map[], Seen(t, UpdatesIn(hist + [x])))
    {
      SeenConcat(t, UpdatesIn(hist), [x.update]);
      assert Seen(t, [x.update][1..]) == [];
      assert Seen(t, [x.update]) == if x.update.ticker == t then [x.update] else [];
      if t == x.update.ticker {
        ApplyConcat(map[], Seen(t, UpdatesIn(hist)), [x.update]);
        ApplyOne(books[t], x.update);
      } else {
        assert Seen(t, UpdatesIn(hist)) + [] == Seen(t, UpdatesIn(hist));
      }
    }
  }

  /** Writing slot (n-1) mod capacity keeps every other entry that is still in the window. */
  lemma AppendRing(ring: seq<ReplayEntry>, hist: seq<Sequenced>, x: Sequenced, e: ReplayEntry)
    requires RingHolds(ring, hist) && Holds(e, x) && |e.buffer| == ITCH_MAX_MSG_SIZE
    ensures RingHolds(ring[|hist| % REPLAY_CAPACITY := e], hist + [x])
  {
  }

  /** The ring after x took its slot, as e. */
  ghost predicate Rewritten(e: ReplayEntry, x: Sequenced, ring: seq<ReplayEntry>, ring': seq<ReplayEntry>)
    requires 0 < x.seqNum && |ring| == REPLAY_CAPACITY
  {
    && Holds(e, x) && |e.buffer| == ITCH_MAX_MSG_SIZE
    && ring' == ring[(x.seqNum - 1) % REPLAY_CAPACITY := e]
  }

  lemma NoDatagrams()
    ensures Datagrams([]) == []
  {
  }

  lemma SlotIsReadable(e: ReplayEntry, x: Sequenced)
    requires Holds(e, x)
    ensures e.len <= |e.buffer|
  {
  }

  lemma ReplayStep(hist: seq<Sequenced>, from: nat, n: nat, e: ReplayEntry)
    requires from < n <= |hist| && Holds(e, hist[n - 1]) && hist[n - 1].seqNum == n
    ensures Datagrams(hist[from..n]) == Datagrams(hist[from..n - 1]) + e.prefix + e.buffer[..e.len]
  {
    var w := hist[from..n];
    assert w[..|w| - 1] == hist[from..n - 1] && w[|w| - 1] == hist[n - 1];
  }

  /** The part of a shadow book that has been written out. */
  function Part(s: Shadow, done: set<OrderId>): View {
    map id | id in done && id in s :: WireEntry(s[id])
  }

  lemma PartAdd(s: Shadow, done: set<OrderId>, id: OrderId)
    requires id in s
    ensures Part(s, done + {id}) == Part(s, done)[id := WireEntry(s[id])]
  {
  }

  lemma PartAll(s: Shadow)
    ensures Part(s, {}) == map[] && Part(s, s.Keys) == WireView(s)
  {
  }

  /** Reading one more add frame of ticker t. */
  lemma ReadAdd(v: Views, v0: Views, body: seq<Frame>, f: Frame, t: TickerId, w: View)
    requires ReadAll(map[], body) == v && v == v0[t := w] && f.AddFrame? && f.stock == t
    ensures ReadAll(map[], body + [f]) == v0[t := w[f.ref := Entry(f.side, f.price, f.shares)]]
  {
  }

  class SnapshotStreamer {
    var books: seq<Shadow>
    var lastSeq: nat
    var dirty: bool
    const ring: array<ReplayEntry>
    var snapshotBuf: seq<Frame>
    ghost var hist: seq<Sequenced>

    ghost predicate Valid()
      reads this, ring
    {
      && Consistent(books, lastSeq, hist)
      && RingHolds(ring[..], hist)
      && CacheFresh(snapshotBuf, dirty, books, lastSeq)
    }

    constructor (maxTickers: nat)
      ensures Valid() && |books| == maxTickers && hist == [] && fresh(ring)
    {
      books := seq(maxTickers, _ => map[]);
      lastSeq, dirty, snapshotBuf, hist := 0, false, [], [];
      ring := new ReplayEntry[REPLAY_CAPACITY](_ => ReplayEntry([], seq(ITCH_MAX_MSG_SIZE, _ => 0), 0));
    }

    method ApplyToBook(u: Update)
      requires u.ticker < |books|
      modifies this`books, this`dirty
      ensures books == old(books)[u.ticker := Apply(old(books)[u.ticker], u)]
      ensures dirty == (old(dirty) || Encodable(u.kind))
    {
      var s := books[u.ticker];
      match u.kind {
        case Add =>
          s := s[u.moid := u];
        case Cancel =>
          s := s - {u.moid};
        case Modify =>
          s := s - {u.moid};
          s := s[u.newId := u.(moid := u.newId, newId := INVALID_ID)];
        case Trade =>
          if u.moid in s {
            if s[u.moid].qty <= u.qty {
              s := s - {u.moid};
            } else {
              s := s[u.moid := s[u.moid].(qty := s[u.moid].qty - u.qty)];
            }
          }
        case SnapshotStart =>
        case Clear =>
        case SnapshotEnd =>
      }
      books := books[u.ticker := s];
      if Encodable(u.kind) {
        dirty := true;
      }
    }

    method WriteReplayEntry(x: Sequenced)
      requires 0 < x.seqNum && |x.payload| <= ITCH_MAX_MSG_SIZE && ring.Length == REPLAY_CAPACITY
      requires |ring[(x.seqNum - 1) % REPLAY_CAPACITY].buffer| == ITCH_MAX_MSG_SIZE
      modifies ring
      ensures exists e :: Rewritten(e, x, old(ring[..]), ring[..])
    {
      var i := (x.seqNum - 1) % REPLAY_CAPACITY;
      var e := ring[i];
      e := e.(prefix := BigEndian(x.seqNum, 8));
      e := e.(buffer := x.payload + e.buffer[|x.payload|..]);  // the old tail stays behind the new payload
      e := e.(len := |x.payload|);
      ring[i] := e;
      assert Rewritten(e, x, old(ring[..]), ring[..]);
    }

    /** One turn of the drain loop. */
    method Consume(x: Sequenced)
      requires Valid() && x.seqNum == lastSeq + 1 && x.update.ticker < |books|
      requires Encodable(x.update.kind) && |x.payload| <= ITCH_MAX_MSG_SIZE
      modifies this, ring
      ensures Valid() && hist == old(hist) + [x] && |books| == |old(books)|
    {
      AppendConsistent(books, hist, x);
      ApplyToBook(x.update);
      WriteReplayEntry(x);
      ghost var e :| Rewritten(e, x, old(ring[..]), ring[..]);
      AppendRing(old(ring[..]), hist, x, e);
      lastSeq := x.seqNum;
      hist := hist + [x];
    }

    /** The replay reply: current, gap too large, or exactly the missing datagrams in order. */
    method ServeReplay(clientSeq: nat) returns (reply: seq<Byte>)
      requires Valid()
      ensures lastSeq == |hist|
      ensures clientSeq >= lastSeq ==> reply == [STATUS_CURRENT]
      ensures clientSeq + REPLAY_CAPACITY < lastSeq ==> reply == [STATUS_GAP]
      ensures clientSeq < lastSeq <= clientSeq + REPLAY_CAPACITY ==>
        reply == [STATUS_REPLAY] + Datagrams(hist[clientSeq..])
    {
      hide ApplyAll, Seen, CacheFresh, BigEndian, Datagrams, Holds;
      if clientSeq >= lastSeq {
        return [STATUS_CURRENT];
      }
      var oldest := if lastSeq > REPLAY_CAPACITY then lastSeq - REPLAY_CAPACITY else 0;
      if clientSeq < oldest {
        return [STATUS_GAP];
      }
      var scratch: seq<Byte> := [];
      NoDatagrams();
      assert hist[clientSeq..clientSeq] == [];
      var n := clientSeq + 1;
      while n <= lastSeq
        invariant clientSeq + 1 <= n <= lastSeq + 1
        invariant scratch == Datagrams(hist[clientSeq..n - 1])
      {
        var e := ring[(n - 1) % REPLAY_CAPACITY];
        assert e == ring[..][(n - 1) % REPLAY_CAPACITY];
        assert Holds(e, hist[n - 1]);
        SlotIsReadable(e, hist[n - 1]);
        scratch := scratch + e.prefix;
        scratch := scratch + e.buffer[..e.len];
        ReplayStep(hist, clientSeq, n, e);
        n := n + 1;
      }
      reply := [STATUS_REPLAY] + scratch;
      assert hist[clientSeq..lastSeq] == hist[clientSeq..];
    }

    /** 'S': bake if dirty or never baked, then one send of the flat buffer. */
    method ServeSnapshot() returns (frames: seq<Frame>)
      requires Valid()
      modifies this`snapshotBuf, this`dirty
      ensures Valid()
      ensures frames == snapshotBuf && Decode(frames) == Some(Snapshot(|hist|, WireViews(books)))
    {
      if dirty || snapshotBuf == [] {
        BakeSnapshot();
      }
      frames := snapshotBuf;
    }

    method BakeTickers() returns (body: seq<Frame>)
      requires forall t :: 0 <= t < |books| ==> Filed(books[t], t)
      ensures ReadAll(map[], body) == WireViews(books)
    {
      hide ReadAll, WireView, Filed;
      body := [];
      NothingRead();
      for t := 0 to |books|
        invariant ReadAll(map[], body) == map x: TickerId | 0 <= x < t :: WireView(books[x])
      {
        body := AppendTicker(body, t, books[t]);
      }
    }

    lemma BooksFiled()
      requires Valid()
      ensures forall t :: 0 <= t < |books| ==> Filed(books[t], t)
    {
      forall t | 0 <= t < |books|
        ensures Filed(books[t], t)
      {
        SeenFiled(t, UpdatesIn(hist));
        ApplyFiled(map[], t, Seen(t, UpdatesIn(hist)));
      }
    }

    method BakeSnapshot()
      requires Valid()
      modifies this`snapshotBuf, this`dirty
      ensures !dirty && Decode(snapshotBuf) == Some(Snapshot(lastSeq, WireViews(books)))
    {
      snapshotBuf := [];
      BooksFiled();
      var body := BakeTickers();
      var now: nat := *;
      var start, end := Ctrl(SNAP_CTRL_START, lastSeq, now), Ctrl(SNAP_CTRL_END, lastSeq, now);
      snapshotBuf := [start] + body + [end];
      assert snapshotBuf[1..|snapshotBuf| - 1] == body;
      dirty := false;
    }
  }

  /** CLEAR(t), then every order of the ticker re-encoded as an add, in whatever order the map yields. */
  method AppendTicker(body: seq<Frame>, t: TickerId, s: Shadow) returns (body': seq<Frame>)
    requires Filed(s, t)
    ensures ReadAll(map[], body') == ReadAll(map[], body)[t := WireView(s)]
  {
    hide ReadAll, Read, WireEntry;
    var now: nat := *;
    body' := body + [Ctrl(SNAP_CTRL_CLEAR, t, now)];
    ReadClear(body, t, now);
    PartAll(s);
    var todo := s.Keys;
    ghost var done: set<OrderId> := {};
    while todo != {}
      invariant done + todo == s.Keys && done !! todo
      invariant ReadAll(map[], body') == ReadAll(map[], body)[t := Part(s, done)]
      decreases |todo|
    {
      var id :| id in todo;
      now := *;
      var frame := Encode(s[id].(kind := Add), now);
      if frame.Some? {
        ReadAdd(ReadAll(map[], body'), ReadAll(map[], body), body', frame.value, t, Part(s, done));
        EncodedAdd(s[id], now);
        PartAdd(s, done, id);
        body' := body' + [frame.value];
      }
      todo, done := todo - {id}, done + {id};
    }
    assert done == s.Keys;
  }

  lemma NothingRead()
    ensures ReadAll(map[], []) == map[]
  {
  }

  lemma ReadClear(body: seq<Frame>, t: TickerId, now: nat)
    ensures ReadAll(map[], body + [Ctrl(SNAP_CTRL_CLEAR, t, now)]) == ReadAll(map[], body)[t := map[]]
  {
  }

  lemma EncodedAdd(u: Update, now: nat)
    ensures var f := Encode(u.(kind := Add), now).value;
            f.AddFrame? && Entry(f.side, f.price, f.shares) == WireEntry(u)
  {
  }
}
