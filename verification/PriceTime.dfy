/**
 The reference order book: each side is one list of resting orders in priority order (best price
 first, then time). Three concrete books refine it.
 */
module PriceTime {
  import opened Types

  /** The two production books differ in three outputs, and in nothing else. */
  datatype Flavor = MapForm | VectorForm

  datatype Order = Order(
    ticker: TickerId, client: ClientId, coid: OrderId, moid: OrderId, otype: OrderType,
    price: Price, initial: Quantity, remaining: Quantity, side: Side, token: Token)

  /** An order on its way into the book, before it has met the opposite side. */
  datatype Incoming = Incoming(
    ticker: TickerId, client: ClientId, coid: OrderId, moid: OrderId, otype: OrderType,
    price: Price, qty: Quantity, side: Side, token: Token)

  datatype Book = Book(bids: seq<Order>, asks: seq<Order>, nextId: OrderId) {
    function Orders(side: Side): seq<Order> {
      if side.Buy? then bids else asks
    }

    function With(side: Side, l: seq<Order>): Book {
      if side.Buy? then this.(bids := l) else this.(asks := l)
    }
  }

  const EMPTY := Book([], [], 1)

  /** p has priority over q on this side. */
  predicate Better(side: Side, p: Price, q: Price) {
    if side.Buy? then p > q else p < q
  }

  /** A limit on this side may trade at the given opposite level. */
  predicate Crosses(side: Side, limit: Price, level: Price) {
    if side.Buy? then level <= limit else limit <= level
  }

  // ---------------------------------------------------------------- positions

  /** The first position whose price is worse than p: behind every order of the same price. */
  function InsertPos(side: Side, l: seq<Order>, p: Price): (k: nat)
    ensures k <= |l|
    ensures forall i :: 0 <= i < k ==> !Better(side, p, l[i].price)
    ensures k < |l| ==> Better(side, p, l[k].price)
  {
    if l == [] || Better(side, p, l[0].price) then 0 else 1 + InsertPos(side, l[1..], p)
  }

  function Insert(l: seq<Order>, o: Order): seq<Order> {
    var k := InsertPos(o.side, l, o.price);
    l[..k] + [o] + l[k..]
  }

  predicate HasKey(o: Order, client: ClientId, coid: OrderId) {
    o.client == client && o.coid == coid
  }

  /** Position of the first order with this key, or the length of the list. */
  function Find(l: seq<Order>, client: ClientId, coid: OrderId): (k: nat)
    ensures k <= |l|
    ensures k < |l| ==> HasKey(l[k], client, coid)
    ensures forall i :: 0 <= i < k ==> !HasKey(l[i], client, coid)
  {
    if l == [] || HasKey(l[0], client, coid) then 0 else 1 + Find(l[1..], client, coid)
  }

  predicate Present(b: Book, client: ClientId, coid: OrderId) {
    Find(b.bids, client, coid) < |b.bids| || Find(b.asks, client, coid) < |b.asks|
  }

  function SideOf(b: Book, client: ClientId, coid: OrderId): Side {
    if Find(b.bids, client, coid) < |b.bids| then Buy else Sell
  }

  function Remove<T>(l: seq<T>, k: nat): seq<T>
    requires k < |l|
  {
    l[..k] + l[k + 1..]
  }

  // ---------------------------------------------------------------- messages

  function ExecutedResting(inc: Incoming, o: Order, fill: Quantity, mid: OrderId): Response {
    Response(o.client, inc.ticker, o.coid, o.moid, o.side, o.price, o.initial, o.otype, Executed,
             fill, o.price, o.remaining, mid, o.token)
  }

  function ExecutedAggressor(inc: Incoming, o: Order, fill: Quantity, left: Quantity, mid: OrderId): Response {
    Response(inc.client, inc.ticker, inc.coid, inc.moid, inc.side, inc.price, inc.qty, inc.otype, Executed,
             fill, o.price, left, mid, inc.token)
  }

  /** Only the map book puts the match id on the public trade. */
  function TradeUpdate(f: Flavor, inc: Incoming, o: Order, fill: Quantity, mid: OrderId): Update {
    Update(inc.ticker, o.moid, Trade, o.side, o.price, fill, INVALID_ID,
           if f.MapForm? then mid else INVALID_ID)
  }

  /** The three messages of one fill; o is the resting order after the fill. */
  function FillOutputs(f: Flavor, inc: Incoming, o: Order, fill: Quantity, left: Quantity, mid: OrderId): seq<Output> {
    [Private(ExecutedResting(inc, o, fill, mid)),
     Private(ExecutedAggressor(inc, o, fill, left, mid)),
     Public(TradeUpdate(f, inc, o, fill, mid))]
  }

  /** ACCEPTED and MODIFIED echo the whole quantity; CANCELED the dropped remainder. */
  function Notice(inc: Incoming, status: Status, leaves: Quantity): Response {
    Response(inc.client, inc.ticker, inc.coid, inc.moid, inc.side, inc.price, inc.qty, inc.otype, status,
             0, inc.price, leaves, INVALID_ID, inc.token)
  }

  function PlainUpdate(ticker: TickerId, moid: OrderId, kind: UpdateKind, side: Side, price: Price, qty: Quantity,
                       newId: OrderId): Update {
    Update(ticker, moid, kind, side, price, qty, newId, INVALID_ID)
  }

  function UnknownReject(req: Request): Response {
    Response(req.client, req.ticker, req.coid, INVALID_ID, Buy, INVALID_PRICE, 0, GoodTillCancel, CancelRejected,
             0, INVALID_PRICE, 0, INVALID_ID, req.token)
  }

  function ExcessReject(req: Request, o: Order): Response {
    Response(req.client, req.ticker, req.coid, o.moid, o.side, o.price, o.initial, o.otype, CancelRejected,
             0, INVALID_PRICE, o.remaining, INVALID_ID, o.token)
  }

  /** The map book reports what was canceled, the vector book what is left. */
  function CanceledResponse(f: Flavor, req: Request, o: Order, canceled: Quantity): Response
    requires canceled <= o.remaining
  {
    Response(req.client, req.ticker, req.coid, o.moid, o.side, o.price, o.initial, o.otype, Canceled,
             0, o.price, if f.MapForm? then canceled else o.remaining - canceled, INVALID_ID, o.token)
  }

  function CancelUpdate(req: Request, o: Order, canceled: Quantity): Update {
    PlainUpdate(req.ticker, o.moid, Cancel, o.side, o.price, canceled, INVALID_ID)
  }

  // ---------------------------------------------------------------- matching

  datatype MatchResult = MatchResult(rest: seq<Order>, left: Quantity, mid: OrderId, outs: seq<Output>)

  function Prepend(outs: seq<Output>, m: MatchResult): MatchResult {
    m.(outs := outs + m.outs)
  }

  predicate Stops(opp: seq<Order>, inc: Incoming, left: Quantity) {
    opp == [] || left == 0 || !Crosses(inc.side, inc.price, opp[0].price)
  }

  /** One fill against the front of the opposite side; a spent order leaves the list. */
  function FillFront(f: Flavor, opp: seq<Order>, inc: Incoming, left: Quantity, mid: OrderId): MatchResult
    requires opp != []
  {
    var fill := Min(left, opp[0].remaining);
    var o := opp[0].(remaining := opp[0].remaining - fill);
    MatchResult(if o.remaining == 0 then opp[1..] else opp[0 := o], left - fill, mid + 1,
                FillOutputs(f, inc, o, fill, left - fill, mid))
  }

  /** Take liquidity from the front of the opposite side until filled or nothing crosses. */
  function Match(f: Flavor, opp: seq<Order>, inc: Incoming, left: Quantity, mid: OrderId): MatchResult
    decreases |opp|, left
  {
    if Stops(opp, inc, left) then MatchResult(opp, left, mid, [])
    else
      var s := FillFront(f, opp, inc, left, mid);
      Prepend(s.outs, Match(f, s.rest, inc, s.left, s.mid))
  }

  ghost predicate NoneBetter(side: Side, l: seq<Order>, p: Price) {
    forall i :: 0 <= i < |l| ==> !Better(side, l[i].price, p)
  }

  /** Progress of a matching loop: what it has emitted, then what is still to come, is the whole match. */
  ghost predicate Matching(total: MatchResult, done: seq<Output>, f: Flavor, opp: seq<Order>, inc: Incoming,
                           left: Quantity, mid: OrderId) {
    total == Prepend(done, Match(f, opp, inc, left, mid))
  }

  lemma MatchingStep(total: MatchResult, done: seq<Output>, f: Flavor, opp: seq<Order>, inc: Incoming,
                     left: Quantity, mid: OrderId, p: Price)
    requires Matching(total, done, f, opp, inc, left, mid) && !Stops(opp, inc, left)
    requires NoneBetter(inc.side.Opposite(), opp, p)
    ensures var m := FillFront(f, opp, inc, left, mid);
            && Matching(total, done + m.outs, f, m.rest, inc, m.left, m.mid)
            && NoneBetter(inc.side.Opposite(), m.rest, p)
            && (|m.rest| < |opp| || (|m.rest| == |opp| && m.left < left))
  {
  }

  lemma MatchingEnds(total: MatchResult, done: seq<Output>, f: Flavor, opp: seq<Order>, inc: Incoming,
                     left: Quantity, mid: OrderId)
    requires Matching(total, done, f, opp, inc, left, mid) && Stops(opp, inc, left)
    ensures total == MatchResult(opp, left, mid, done)
  {
  }

  // ---------------------------------------------------------------- operations

  datatype StepResult = StepResult(book: Book, mid: OrderId, outs: seq<Output>)

  function Resting(inc: Incoming, left: Quantity): Order {
    Order(inc.ticker, inc.client, inc.coid, inc.moid, inc.otype, inc.price, left, left, inc.side, inc.token)
  }

  function NewIncoming(b: Book, req: Request): Incoming {
    Incoming(req.ticker, req.client, req.coid, b.nextId, req.otype, req.price, req.qty, req.side, req.token)
  }

  /** The book after matching, with the good-till-cancel remainder resting. */
  function Settle(b: Book, inc: Incoming, rest: seq<Order>, left: Quantity): Book {
    var b1 := b.With(inc.side.Opposite(), rest);
    if left > 0 && inc.otype.GoodTillCancel?
    then b1.With(inc.side, Insert(b1.Orders(inc.side), Resting(inc, left)))
    else b1
  }

  /** A remainder either rests and is announced, or is dropped and reported. */
  function AddTail(inc: Incoming, left: Quantity): seq<Output> {
    if left == 0 then []
    else if inc.otype.GoodTillCancel?
    then [Public(PlainUpdate(inc.ticker, inc.moid, Add, inc.side, inc.price, left, INVALID_ID))]
    else [Private(Notice(inc, Canceled, left))]
  }

  function AddStep(f: Flavor, b: Book, mid: OrderId, req: Request): StepResult {
    var inc := NewIncoming(b, req);
    var b0 := b.(nextId := b.nextId + 1);
    var m := Match(f, b0.Orders(inc.side.Opposite()), inc, inc.qty, mid);
    StepResult(Settle(b0, inc, m.rest, m.left), m.mid,
               [Private(Notice(inc, Accepted, inc.qty))] + m.outs + AddTail(inc, m.left))
  }

  function CancelQty(req: Request, o: Order): Quantity {
    if req.qty == 0 then o.remaining else req.qty
  }

  function Reduce(l: seq<Order>, k: nat, less: Quantity): seq<Order>
    requires k < |l| && less <= l[k].remaining
  {
    if less == l[k].remaining then Remove(l, k) else l[k := l[k].(remaining := l[k].remaining - less)]
  }

  function CancelStep(f: Flavor, b: Book, mid: OrderId, req: Request): StepResult {
    if !Present(b, req.client, req.coid) then StepResult(b, mid, [Private(UnknownReject(req))])
    else
      var side := SideOf(b, req.client, req.coid);
      var l := b.Orders(side);
      var k := Find(l, req.client, req.coid);
      var canceled := CancelQty(req, l[k]);
      if canceled > l[k].remaining then StepResult(b, mid, [Private(ExcessReject(req, l[k]))])
      else StepResult(b.With(side, Reduce(l, k, canceled)), mid,
                      [Public(CancelUpdate(req, l[k], canceled)), Private(CanceledResponse(f, req, l[k], canceled))])
  }

  predicate ReplaceAccepted(b: Book, req: Request) {
    Present(b, req.client, req.coid) && req.newCoid != 0 && req.qty != 0
  }

  function Replaced(b: Book, req: Request): Order
    requires Present(b, req.client, req.coid)
  {
    var l := b.Orders(SideOf(b, req.client, req.coid));
    l[Find(l, req.client, req.coid)]
  }

  function ReplaceIncoming(b: Book, req: Request): Incoming
    requires Present(b, req.client, req.coid)
  {
    Incoming(req.ticker, req.client, req.newCoid, b.nextId, req.otype, req.price, req.qty,
             Replaced(b, req).side, req.token)
  }

  /** The book without the order being replaced, its successor's id already taken. */
  function WithoutReplaced(b: Book, req: Request): Book
    requires Present(b, req.client, req.coid)
  {
    var side := SideOf(b, req.client, req.coid);
    var l := b.Orders(side);
    b.With(side, Remove(l, Find(l, req.client, req.coid))).(nextId := b.nextId + 1)
  }

  function ReplaceMatch(f: Flavor, b: Book, mid: OrderId, req: Request): MatchResult
    requires Present(b, req.client, req.coid)
  {
    var inc := ReplaceIncoming(b, req);
    Match(f, WithoutReplaced(b, req).Orders(inc.side.Opposite()), inc, inc.qty, mid)
  }

  /** Only the map book announces the dropped remainder of a fill-and-kill replacement. */
  function ReplaceTail(f: Flavor, inc: Incoming, left: Quantity): seq<Output> {
    if left == 0 || inc.otype.GoodTillCancel? || f.VectorForm? then []
    else [Private(Notice(inc, Canceled, left)),
          Public(PlainUpdate(inc.ticker, inc.moid, Cancel, inc.side, inc.price, left, INVALID_ID))]
  }

  function ReplaceHead(b: Book, req: Request): seq<Output>
    requires Present(b, req.client, req.coid)
  {
    var inc := ReplaceIncoming(b, req);
    [Private(Notice(inc, Modified, inc.qty)),
     Public(PlainUpdate(inc.ticker, Replaced(b, req).moid, Modify, inc.side, inc.price, inc.qty, inc.moid))]
  }

  function ReplaceStep(f: Flavor, b: Book, mid: OrderId, req: Request): StepResult {
    if !ReplaceAccepted(b, req) then StepResult(b, mid, [Private(UnknownReject(req))])
    else
      var inc := ReplaceIncoming(b, req);
      var m := ReplaceMatch(f, b, mid, req);
      StepResult(Settle(WithoutReplaced(b, req), inc, m.rest, m.left), m.mid,
                 ReplaceHead(b, req) + m.outs + ReplaceTail(f, inc, m.left))
  }

  function Step(f: Flavor, b: Book, mid: OrderId, req: Request): StepResult {
    match req.action
    case NewOrder => AddStep(f, b, mid, req)
    case CancelOrder => CancelStep(f, b, mid, req)
    case ModifyOrder => ReplaceStep(f, b, mid, req)
  }

  /** The (client, id) pair that a request would bring into the book is not resting there. */
  predicate Fresh(b: Book, req: Request) {
    match req.action
    case NewOrder => !Present(b, req.client, req.coid)
    case CancelOrder => true
    case ModifyOrder => req.newCoid == req.coid || !Present(b, req.client, req.newCoid)
  }

  // ---------------------------------------------------------------- absent keys stay absent

  lemma FindNothing(l: seq<Order>, client: ClientId, coid: OrderId)
    ensures Find(l, client, coid) == |l| <==> forall i :: 0 <= i < |l| ==> !HasKey(l[i], client, coid)
  {
  }

  lemma {:induction false} AbsentInRest(f: Flavor, opp: seq<Order>, inc: Incoming, left: Quantity, mid: OrderId,
                                        client: ClientId, coid: OrderId)
    requires Find(opp, client, coid) == |opp|
    ensures var rest := Match(f, opp, inc, left, mid).rest; Find(rest, client, coid) == |rest|
    decreases |opp|, left
  {
    if !Stops(opp, inc, left) {
      var m := FillFront(f, opp, inc, left, mid);
      FindNothing(opp, client, coid);
      FindNothing(m.rest, client, coid);
      AbsentInRest(f, m.rest, inc, m.left, m.mid, client, coid);
    }
  }

  /** Matching brings no new key into the book. */
  lemma AbsentAfterMatch(f: Flavor, b: Book, inc: Incoming, mid: OrderId, client: ClientId, coid: OrderId)
    requires !Present(b, client, coid)
    ensures var opp := inc.side.Opposite();
            !Present(b.With(opp, Match(f, b.Orders(opp), inc, inc.qty, mid).rest), client, coid)
  {
    AbsentInRest(f, b.Orders(inc.side.Opposite()), inc, inc.qty, mid, client, coid);
  }

  lemma AbsentAfterRemoval(b: Book, req: Request, client: ClientId, coid: OrderId)
    requires Present(b, req.client, req.coid) && !Present(b, client, coid)
    ensures !Present(WithoutReplaced(b, req), client, coid)
  {
  }
}
