/** The part of the matching engine that its books call back into. */
module EnginePort {
  import opened Types

  class Port {
    var nextMatchId: OrderId
    var outs: seq<Output>  // everything emitted so far, in order

    constructor ()
      ensures nextMatchId == 1 && outs == []
    {
      nextMatchId, outs := 1, [];
    }

    method NextMatchId() returns (m: OrderId)
      modifies this`nextMatchId
      ensures m == old(nextMatchId) && nextMatchId == m + 1
    {
      m := nextMatchId;
      nextMatchId := nextMatchId + 1;
    }

    method SendClientResponse(r: Response)
      modifies this`outs
      ensures outs == old(outs) + [Private(r)]
    {
      outs := outs + [Private(r)];
    }

    method SendMarketUpdate(u: Update)
      modifies this`outs
      ensures outs == old(outs) + [Public(u)]
    {
      outs := outs + [Public(u)];
    }
  }
}
