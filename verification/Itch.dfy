/** Market-data frames: what the encoder keeps of an update, and how a recovery client reads a snapshot. */
module Itch {
  import opened Types
  import opened ShadowBook

  const HALF: nat := 0x1_0000       // stock locates are 16 bits wide

  const SNAP_CTRL_START: nat := 0xBBBB
  const SNAP_CTRL_CLEAR: nat := 0xCCCC
  const SNAP_CTRL_END: nat := 0xEEEE

  datatype Frame =
    | AddFrame(locate: nat, time: nat, ref: OrderId, side: Side, shares: nat, stock: TickerId, price: nat)
    | DeleteFrame(locate: nat, time: nat, ref: OrderId)
    | ExecutedFrame(locate: nat, time: nat, ref: OrderId, shares: nat, matchNumber: OrderId)
    | ReplaceFrame(locate: nat, time: nat, ref: OrderId, newRef: OrderId, shares: nat, price: nat)

  predicate Encodable(kind: UpdateKind) {
    kind == Add || kind == Cancel || kind == Modify || kind == Trade
  }

  function Encode(u: Update, time: nat): (r: Option<Frame>)
    ensures r.Some? <==> Encodable(u.kind)
  {
    var locate := u.ticker % HALF;
    match u.kind
    case Add => Some(AddFrame(locate, time, u.moid, u.side, u.qty % WORD, u.ticker, u.price % WORD))
    case Cancel => Some(DeleteFrame(locate, time, u.moid))
    case Trade => Some(ExecutedFrame(locate, time, u.moid, u.qty % WORD, u.matchId))
    case Modify => Some(ReplaceFrame(locate, time, u.moid, u.newId, u.qty % WORD, u.price % WORD))
    case SnapshotStart => None
    case Clear => None
    case SnapshotEnd => None
  }

  function Ctrl(code: nat, value: nat, time: nat): Frame {
    DeleteFrame(code, time, value)
  }

  // ---------------------------------------------------------------- sequence prefix

  function BigEndian(n: nat, width: nat): (b: seq<Byte>)
    ensures |b| == width
  {
    if width == 0 then [] else BigEndian(n / 256, width - 1) + [n % 256]
  }

  function FromBigEndian(b: seq<Byte>): nat {
    if b == [] then 0 else 256 * FromBigEndian(b[..|b| - 1]) + b[|b| - 1]
  }

  function Power256(k: nat): nat {
    if k == 0 then 1 else 256 * Power256(k - 1)
  }

  /** A prefix of enough bytes gives the number back. */
  lemma {:induction false} BigEndianRoundTrip(n: nat, width: nat)
    requires n < Power256(width)
    ensures FromBigEndian(BigEndian(n, width)) == n
  {
    if width != 0 {
      assert n / 256 < Power256(width - 1);
      BigEndianRoundTrip(n / 256, width - 1);
      assert BigEndian(n, width)[..width - 1] == BigEndian(n / 256, width - 1);
    }
  }

  /** The most significant byte comes first. */
  lemma {:induction false} BigEndianAt(n: nat, width: nat, i: nat)
    requires i < width
    ensures 0 < Power256(width - 1 - i) && BigEndian(n, width)[i] == n / Power256(width - 1 - i) % 256
  {
    if i < width - 1 {
      BigEndianAt(n / 256, width - 1, i);
      DivideTwice(n, Power256(width - 2 - i));
    }
  }

  lemma DivideTwice(n: nat, d: nat)
    requires 0 < d
    ensures n / 256 / d == n / (256 * d)
  {
    var q, r := n / 256 / d, n / 256 % d;
    assert n == 256 * (q * d + r) + n % 256 == 256 * d * q + (256 * r + n % 256);
    assert 0 <= 256 * r + n % 256 < 256 * d;
    QuotientIs(n, 256 * d, q, 256 * r + n % 256);
  }

  lemma QuotientIs(n: nat, d: nat, q: nat, r: nat)
    requires 0 < d && n == d * q + r && r < d
    ensures n / d == q
  {
    assert d * (q - n / d) == n % d - r;
    SmallMultiple(d, q - n / d);
  }

  lemma SmallMultiple(d: int, x: int)
    requires 0 - d < d * x < d
    ensures x == 0
  {
    assert x >= 1 ==> d * x >= d;
    assert x <= -1 ==> d * x <= 0 - d;
  }

  /** One datagram of the feed: eight bytes of sequence number, then the payload. */
  function Datagram(seqNum: nat, payload: seq<Byte>): seq<Byte> {
    BigEndian(seqNum, 8) + payload
  }

  // ---------------------------------------------------------------- what a snapshot says

  datatype Entry = Entry(side: Side, price: nat, qty: nat)

  type View = map<OrderId, Entry>

  function EntryOf(u: Update): Entry {
    Entry(u.side, u.price, u.qty)
  }

  /** The entry as it survives the wire. */
  function WireEntry(u: Update): Entry {
    Entry(u.side, u.price % WORD, u.qty % WORD)
  }

  function ViewOf(s: Shadow): View {
    map id | id in s :: EntryOf(s[id])
  }

  function WireView(s: Shadow): View {
    map id | id in s :: WireEntry(s[id])
  }

  /** The wire loses nothing exactly when every price and quantity fits. */
  lemma WireExact(s: Shadow)
    ensures WireView(s) == ViewOf(s) <==> forall id :: id in s ==> s[id].price < WORD && s[id].qty < WORD
  {
    if WireView(s) == ViewOf(s) {
      forall id | id in s
        ensures s[id].price < WORD && s[id].qty < WORD
      {
        assert WireView(s)[id] == ViewOf(s)[id];
      }
    }
  }

  type Views = map<TickerId, View>

  /** A recovery client reading the body of a snapshot, frame by frame. */
  function Read(v: Views, f: Frame): Views {
    match f
    case DeleteFrame(locate, _, ref) => if locate == SNAP_CTRL_CLEAR then v[ref := map[]] else v
    case AddFrame(_, _, ref, side, shares, stock, price) =>
      v[stock := (if stock in v then v[stock] else map[])[ref := Entry(side, price, shares)]]
    case ExecutedFrame(_, _, _, _, _) => v
    case ReplaceFrame(_, _, _, _, _, _) => v
  }

  function ReadAll(v: Views, frames: seq<Frame>): Views {
    if frames == [] then v else Read(ReadAll(v, frames[..|frames| - 1]), frames[|frames| - 1])
  }

  datatype Snapshot = Snapshot(seqNum: nat, views: Views)

  predicate IsCtrl(f: Frame, code: nat) {
    f.DeleteFrame? && f.locate == code
  }

  /** START(n), the body, END(n). */
  function Decode(frames: seq<Frame>): Option<Snapshot> {
    if |frames| < 2 then None
    else
      var first, last := frames[0], frames[|frames| - 1];
      if IsCtrl(first, SNAP_CTRL_START) && IsCtrl(last, SNAP_CTRL_END) && first.ref == last.ref
      then Some(Snapshot(first.ref, ReadAll(map[], frames[1..|frames| - 1])))
      else None
  }

  // ---------------------------------------------------------------- following the feed

  /**
   A client's own copy of one ticker's book, kept by the frames it receives. A replace names no side, so
   the new order inherits that of the old one; a frame about an unknown order says nothing the client can use.
   */
  function FollowFrame(v: View, f: Frame): View {
    match f
    case AddFrame(_, _, ref, side, shares, _, price) => v[ref := Entry(side, price, shares)]
    case DeleteFrame(_, _, ref) => v - {ref}
    case ExecutedFrame(_, _, ref, shares, _) =>
      if ref !in v then v
      else if v[ref].qty <= shares then v - {ref}
      else v[ref := v[ref].(qty := v[ref].qty - shares)]
    case ReplaceFrame(_, _, ref, newRef, shares, price) =>
      if ref !in v then v else (v - {ref})[newRef := Entry(v[ref].side, price, shares)]
  }

  predicate Fits(u: Update) {
    u.price < WORD && u.qty < WORD
  }

  /** What a replace frame leaves out can be found in the book: the replaced order, on the same side. */
  predicate Followable(s: Shadow, u: Update) {
    u.kind == Modify ==> u.moid in s && s[u.moid].side == u.side
  }

  /** A client that held the shadow book holds it again after the frame if and only if the update is followable. */
  lemma FollowsExactly(s: Shadow, u: Update, time: nat)
    requires Encodable(u.kind) && Fits(u) && (u.kind == Modify ==> u.newId !in s)
    ensures FollowFrame(ViewOf(s), Encode(u, time).value) == ViewOf(Apply(s, u)) <==> Followable(s, u)
  {
    var v, w := FollowFrame(ViewOf(s), Encode(u, time).value), ViewOf(Apply(s, u));
    if u.kind == Modify {
      assert u.newId in w && w[u.newId] == EntryOf(u);
      if Followable(s, u) {
        assert v == w;
      }
    } else {
      assert v == w;
    }
  }

  /** What two updates must share to look the same on the feed. */
  predicate SameOnWire(u: Update, w: Update) {
    && u.kind == w.kind && u.ticker % HALF == w.ticker % HALF && u.moid == w.moid
    && match u.kind
       case Add => u.side == w.side && u.price == w.price && u.qty == w.qty && u.ticker == w.ticker
       case Modify => u.newId == w.newId && u.price == w.price && u.qty == w.qty
       case Trade => u.qty == w.qty && u.matchId == w.matchId
       case _ => true
  }

  /** The frame says this much of an update, and no more. */
  lemma FrameDetermines(u: Update, w: Update, time: nat)
    requires Encodable(u.kind) && Encodable(w.kind) && Fits(u) && Fits(w)
    ensures Encode(u, time) == Encode(w, time) <==> SameOnWire(u, w)
  {
  }

  /** What each kind of frame carries of its update. */
  lemma FrameCarries(u: Update, time: nat)
    requires Encodable(u.kind)
    ensures var f := Encode(u, time).value;
            && f.locate == u.ticker % HALF && f.time == time && f.ref == u.moid
            && (u.kind == Add ==>
                  && f.AddFrame? && f.side == u.side && f.stock == u.ticker
                  && f.shares == u.qty % WORD && f.price == u.price % WORD)
            && (u.kind == Cancel ==> f.DeleteFrame?)
            && (u.kind == Trade ==> f.ExecutedFrame? && f.shares == u.qty % WORD && f.matchNumber == u.matchId)
            && (u.kind == Modify ==>
                  f.ReplaceFrame? && f.newRef == u.newId && f.shares == u.qty % WORD && f.price == u.price % WORD)
  {
  }

  /** All tickers: a frame is about the ticker that its stock locate names. */
  function FollowViews(vs: Views, f: Frame): Views {
    if f.locate in vs then vs[f.locate := FollowFrame(vs[f.locate], f)] else vs
  }
}
