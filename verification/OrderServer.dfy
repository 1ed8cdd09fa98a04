/** The order gateway: framing, token resolution and retention of one read, and client routing. */
module OrderServer {
  import opened Types
  import opened Framing
  import opened Tokens
  import opened Sequencer

  type Socket = nat

  /** Connected sockets and their client ids map one to one, and ids are never handed out twice. */
  ghost predicate Routed(fdToClient: map<Socket, ClientId>, clientToSocket: map<ClientId, Socket>,
                         nextClientId: ClientId) {
    && (forall fd :: fd in fdToClient ==> fdToClient[fd] < nextClientId)
    && (forall fd :: fd in fdToClient ==> fdToClient[fd] in clientToSocket && clientToSocket[fdToClient[fd]] == fd)
    && (forall c :: c in clientToSocket ==> clientToSocket[c] in fdToClient && fdToClient[clientToSocket[c]] == c)
  }

  /** The messages of a client, frame by frame. */
  function Messages(client: ClientId, frames: seq<seq<Byte>>, parse: seq<Byte> -> Ouch): seq<Inbound> {
    seq(|frames|, i requires 0 <= i < |frames| => Inbound(client, parse(frames[i])))
  }

  /** Everything that arrived in between carries the time of its read. */
  ghost predicate StampedAt(time: nat, before: seq<Stamped>, after: seq<Stamped>) {
    before <= after && forall i :: |before| <= i < |after| ==> after[i].time == time
  }

  class Gateway {
    const sizes: Sizes
    const parse: seq<Byte> -> Ouch  // the wire struct of a complete frame
    const tokens: OrderTokenManager
    const fifo: FifoSequencer
    var fdToClient: map<Socket, ClientId>
    var clientToSocket: map<ClientId, Socket>
    var nextClientId: ClientId

    ghost predicate Valid()
      reads this, tokens, fifo, fifo.queue
    {
      && sizes.Valid() && tokens.Valid() && fifo.Valid()
      && Routed(fdToClient, clientToSocket, nextClientId)
    }

    constructor (sizes: Sizes, parse: seq<Byte> -> Ouch, tokens: OrderTokenManager, fifo: FifoSequencer)
      requires sizes.Valid() && tokens.Valid() && fifo.Valid()
      ensures Valid() && nextClientId == 1 && fdToClient == map[]
      ensures this.tokens == tokens && this.fifo == fifo && this.sizes == sizes && this.parse == parse
    {
      this.sizes, this.parse, this.tokens, this.fifo := sizes, parse, tokens, fifo;
      fdToClient, clientToSocket, nextClientId := map[], map[], 1;
    }

    method RegisterClient(fd: Socket) returns (client: ClientId)
      requires Routed(fdToClient, clientToSocket, nextClientId) && fd !in fdToClient
      modifies this`fdToClient, this`clientToSocket, this`nextClientId
      ensures Routed(fdToClient, clientToSocket, nextClientId)
      ensures client == old(nextClientId) && nextClientId == client + 1
      ensures fdToClient == old(fdToClient)[fd := client] && clientToSocket == old(clientToSocket)[client := fd]
    {
      client := nextClientId;
      nextClientId := nextClientId + 1;
      fdToClient := fdToClient[fd := client];
      clientToSocket := clientToSocket[client := fd];
    }

    method OnDisconnect(fd: Socket)
      requires Routed(fdToClient, clientToSocket, nextClientId)
      modifies this`fdToClient, this`clientToSocket
      ensures Routed(fdToClient, clientToSocket, nextClientId)
      ensures fdToClient == old(fdToClient) - {fd}
      ensures clientToSocket ==
              if fd in old(fdToClient) then old(clientToSocket) - {old(fdToClient)[fd]} else old(clientToSocket)
    {
      if fd !in fdToClient {
        assert fdToClient - {fd} == fdToClient;
        return;
      }
      var client := fdToClient[fd];
      clientToSocket := clientToSocket - {client};
      fdToClient := fdToClient - {fd};
    }

    /** Where a response goes: to the live socket of its client, or nowhere. */
    method Route(r: Response) returns (fd: Option<Socket>)
      requires Routed(fdToClient, clientToSocket, nextClientId)
      ensures fd.Some? ==> fd.value in fdToClient && fdToClient[fd.value] == r.client
      ensures fd.None? ==> forall x :: x in fdToClient ==> fdToClient[x] != r.client
    {
      if r.client !in clientToSocket {
        return None;
      }
      return Some(clientToSocket[r.client]);
    }

    /** The client's decoding session, as far as this gateway has it. */
    ghost function Session(): Tokens.Session
      reads this, tokens, fifo
    {
      Tokens.Session(tokens.regs, Requests(fifo.arrivals))
    }

    /** One complete message: decode it, and keep the request whatever the queue's state. */
    method Handle(client: ClientId, kernelTime: nat, frame: seq<Byte>)
      requires tokens.Valid() && fifo.Valid()
      modifies tokens, fifo, fifo.queue
      ensures tokens.Valid() && fifo.Valid() && tokens.Capacity() == old(tokens.Capacity())
      ensures var d := DecodeMsg(old(tokens.regs), old(tokens.Capacity()), client, parse(frame));
              && Session() == Tokens.Session(d.regs, old(Session()).reqs + AsRequest(d.req))
              && StampedAt(kernelTime, old(fifo.arrivals), fifo.arrivals)
    {
      hide DecodeMsg;
      ghost var before := fifo.arrivals;
      var req := tokens.DecodeOuch(client, parse(frame));
      if req.Some? {
        fifo.Retain(kernelTime, req.value);
        RequestsConcat(before, [Stamped(kernelTime, req.value)]);
      }
    }

    /** One read: every complete message is decoded and retained, and the leftover stays in the buffer. */
    method OnRecv(fd: Socket, kernelTime: nat, data: seq<Byte>) returns (tail: seq<Byte>, client: ClientId)
      requires Valid()
      modifies this`fdToClient, this`clientToSocket, this`nextClientId, tokens, fifo, fifo.queue
      ensures Valid()
      ensures client == (if fd in old(fdToClient) then old(fdToClient)[fd] else old(nextClientId))
      ensures fd in fdToClient && fdToClient[fd] == client
      ensures tail == Scan(sizes, data).tail
      ensures Session() == DecodeAll(old(Session()), old(tokens.Capacity()),
                                     Messages(client, Scan(sizes, data).frames, parse))
      ensures StampedAt(kernelTime, old(fifo.arrivals), fifo.arrivals)
    {
      hide Scan, DecodeAll, ByTime, Requests, Accounted, Newest, Messages;
      if fd !in fdToClient {
        client := RegisterClient(fd);
      }
      client := fdToClient[fd];
      tail := DrainBuffer(client, kernelTime, data);
    }

    /** The framing loop; what it returns is what compaction moves to the front of the buffer. */
    method DrainBuffer(client: ClientId, kernelTime: nat, data: seq<Byte>) returns (tail: seq<Byte>)
      requires sizes.Valid() && tokens.Valid() && fifo.Valid()
      modifies tokens, fifo, fifo.queue
      ensures tokens.Valid() && fifo.Valid()
      ensures tail == Scan(sizes, data).tail
      ensures Session() == DecodeAll(old(Session()), old(tokens.Capacity()),
                                     Messages(client, Scan(sizes, data).frames, parse))
      ensures StampedAt(kernelTime, old(fifo.arrivals), fifo.arrivals)
    {
      hide Scan, DecodeMsg, ByTime, Requests, Accounted, Newest, DecodeAll, Messages;
      var offset := 0;
      ghost var done: seq<seq<Byte>> := [];
      assert data[0..] == data;
      NoMessages(old(Session()), old(tokens.Capacity()), client, parse);
      while offset < |data|
        invariant offset <= |data| && tokens.Valid() && fifo.Valid() && tokens.Capacity() == old(tokens.Capacity())
        invariant Scan(sizes, data) == Prefixed(done, Scan(sizes, data[offset..]))
        invariant Session() == DecodeAll(old(Session()), old(tokens.Capacity()), Messages(client, done, parse))
        invariant StampedAt(kernelTime, old(fifo.arrivals), fifo.arrivals)
        decreases |data| - offset
      {
        ScanStep(sizes, data, offset, done);
        var n := MsgSize(sizes, data[offset]);
        if n == 0 {
          offset := offset + 1;
          continue;
        }
        if |data| - offset < n {
          break;
        }
        var frame := data[offset..offset + n];
        Handle(client, kernelTime, frame);
        OneMore(old(Session()), old(tokens.Capacity()), client, done, frame, parse);
        done := done + [frame];
        offset := offset + n;
      }
      ScanEnds(sizes, data, offset);
      assert done + [] == done;
      tail := data[offset..];
    }
  }

  lemma NoMessages(s: Tokens.Session, capacity: nat, client: ClientId, parse: seq<Byte> -> Ouch)
    ensures DecodeAll(s, capacity, Messages(client, [], parse)) == s
  {
  }

  lemma OneMore(s: Tokens.Session, capacity: nat, client: ClientId, done: seq<seq<Byte>>, frame: seq<Byte>,
                parse: seq<Byte> -> Ouch)
    ensures var s' := DecodeAll(s, capacity, Messages(client, done, parse));
            var d := DecodeMsg(s'.regs, capacity, client, parse(frame));
            DecodeAll(s, capacity, Messages(client, done + [frame], parse)) ==
            Tokens.Session(d.regs, s'.reqs + AsRequest(d.req))
  {
    DecodeSnoc(s, capacity, Messages(client, done, parse), Inbound(client, parse(frame)));
    assert Messages(client, done + [frame], parse) == Messages(client, done, parse) + [Inbound(client, parse(frame))];
  }

  /** Two reads, the second behind the leftover of the first, leave the session and the leftover of one read. */
  lemma ReadsCompose(z: Sizes, s: Tokens.Session, capacity: nat, client: ClientId, parse: seq<Byte> -> Ouch,
                     a: seq<Byte>, b: seq<Byte>)
    requires z.Valid()
    ensures var x, y, all := Scan(z, a), Scan(z, Scan(z, a).tail + b), Scan(z, a + b);
            && y.tail == all.tail
            && DecodeAll(DecodeAll(s, capacity, Messages(client, x.frames, parse)), capacity,
                         Messages(client, y.frames, parse))
               == DecodeAll(s, capacity, Messages(client, all.frames, parse))
  {
    hide Scan, DecodeAll;
    var x, y := Scan(z, a), Scan(z, Scan(z, a).tail + b);
    ScanConcat(z, a, b);
    DecodeConcat(s, capacity, Messages(client, x.frames, parse), Messages(client, y.frames, parse));
    assert Messages(client, x.frames + y.frames, parse) ==
           Messages(client, x.frames, parse) + Messages(client, y.frames, parse);
  }

  function Prefixed(done: seq<seq<Byte>>, s: Scanned): Scanned {
    Scanned(done + s.frames, s.tail)
  }

  lemma ScanStep(z: Sizes, data: seq<Byte>, offset: nat, done: seq<seq<Byte>>)
    requires z.Valid() && offset < |data|
    ensures var n, here := MsgSize(z, data[offset]), Prefixed(done, Scan(z, data[offset..]));
            && (n == 0 ==> here == Prefixed(done, Scan(z, data[offset + 1..])))
            && (0 < n <= |data| - offset ==>
                  here == Prefixed(done + [data[offset..offset + n]], Scan(z, data[offset + n..])))
            && (|data| - offset < n ==> Scan(z, data[offset..]) == Scanned([], data[offset..]))
  {
    hide MsgSize, Scan;
    var rest, n := data[offset..], MsgSize(z, data[offset]);
    ScanOnce(z, rest);
    if n == 0 {
      assert rest[1..] == data[offset + 1..];
    } else if n <= |rest| {
      assert rest[n..] == data[offset + n..] && rest[..n] == data[offset..offset + n];
      var next := Scan(z, rest[n..]);
      assert done + ([rest[..n]] + next.frames) == done + [rest[..n]] + next.frames;
    }
  }

  lemma ScanOnce(z: Sizes, data: seq<Byte>)
    requires z.Valid() && data != []
    ensures var n := MsgSize(z, data[0]);
            && (n == 0 ==> Scan(z, data) == Scan(z, data[1..]))
            && (|data| < n ==> Scan(z, data) == Scanned([], data))
            && (0 < n <= |data| ==> Scan(z, data) == Prefixed([data[..n]], Scan(z, data[n..])))
  {
  }

  lemma ScanEnds(z: Sizes, data: seq<Byte>, offset: nat)
    requires z.Valid() && offset <= |data|
    ensures offset == |data| ==> Scan(z, data[offset..]) == Scanned([], [])
  {
  }
}
