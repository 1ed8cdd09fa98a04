/** The domain messages that cross the thread boundaries of the exchange. */
module Types {

  type OrderId = nat
  type ClientId = nat
  type TickerId = nat
  type Price = nat
  type Quantity = nat

  /** The 14 raw OUCH token bytes; they are only ever copied and compared. */
  type Token = seq<char>

  type Byte = x: nat | x < 256

  const WORD: nat := 0x1_0000_0000  // prices and share counts are 32 bits wide on the wire

  /** Levels per side of the array-based books; they cover the prices below this. */
  const MAX_PRICE_LEVELS: nat := 256000

  datatype Option<T> = None | Some(value: T)

  const INVALID_ID: OrderId := 0xFFFF_FFFF_FFFF_FFFF
  const INVALID_PRICE: Price := 0xFFFF_FFFF_FFFF_FFFF

  datatype Side = Buy | Sell {
    function Opposite(): Side {
      if Buy? then Sell else Buy
    }
  }

  datatype OrderType = GoodTillCancel | FillAndKill

  datatype Action = NewOrder | CancelOrder | ModifyOrder

  datatype Status = Accepted | Executed | Canceled | CancelRejected | Modified

  datatype UpdateKind = Add | Cancel | Modify | Trade | SnapshotStart | Clear | SnapshotEnd

  datatype Request = Request(
    action: Action, client: ClientId, coid: OrderId, newCoid: OrderId, price: Price,
    ticker: TickerId, qty: Quantity, otype: OrderType, side: Side, token: Token)

  datatype Response = Response(
    client: ClientId, ticker: TickerId, coid: OrderId, moid: OrderId, side: Side, price: Price,
    qty: Quantity, otype: OrderType, status: Status, executed: Quantity, execPrice: Price,
    leaves: Quantity, matchId: OrderId, token: Token)

  datatype Update = Update(
    ticker: TickerId, moid: OrderId, kind: UpdateKind, side: Side, price: Price, qty: Quantity,
    newId: OrderId, matchId: OrderId)

  /** What the engine emits, in emission order: private responses and public updates. */
  datatype Output = Private(resp: Response) | Public(upd: Update)

  function AsResponse(o: Output): seq<Response> {
    if o.Private? then [o.resp] else []
  }

  function AsUpdate(o: Output): seq<Update> {
    if o.Public? then [o.upd] else []
  }

  function Responses(outs: seq<Output>): seq<Response> {
    if outs == [] then [] else AsResponse(outs[0]) + Responses(outs[1..])
  }

  function Updates(outs: seq<Output>): seq<Update> {
    if outs == [] then [] else AsUpdate(outs[0]) + Updates(outs[1..])
  }

  /** The two projections distribute over concatenation. */
  lemma {:induction false} ResponsesConcat(a: seq<Output>, b: seq<Output>)
    ensures Responses(a + b) == Responses(a) + Responses(b)
  {
    if a == [] {
      assert a + b == b;
    } else {
      assert (a + b)[1..] == a[1..] + b;
      ResponsesConcat(a[1..], b);
    }
  }

  lemma {:induction false} UpdatesConcat(a: seq<Output>, b: seq<Output>)
    ensures Updates(a + b) == Updates(a) + Updates(b)
  {
    if a == [] {
      assert a + b == b;
    } else {
      assert (a + b)[1..] == a[1..] + b;
      UpdatesConcat(a[1..], b);
    }
  }

  function Flatten(chunks: seq<seq<Byte>>): seq<Byte> {
    if chunks == [] then [] else Flatten(chunks[..|chunks| - 1]) + chunks[|chunks| - 1]
  }

  function Min(a: nat, b: nat): nat {
    if a <= b then a else b
  }

  lemma {:induction false} UpdateSource(outs: seq<Output>, k: nat) returns (i: nat)
    requires k < |Updates(outs)|
    ensures i < |outs| && outs[i] == Public(Updates(outs)[k])
  {
    if outs[0].Private? {
      i := UpdateSource(outs[1..], k);
      i := i + 1;
    } else if k == 0 {
      i := 0;
    } else {
      i := UpdateSource(outs[1..], k - 1);
      i := i + 1;
    }
  }
}
