/** The request queue, and the list of live requests that the auto-scaler builds from it. */
module Queue {
  import opened Types
  import opened Sampling

  class ReqQueue {
    var qu: seq<Request>

    constructor ()
      ensures qu == []
    {
      qu := [];
    }

    method Push(request: Request)
      modifies this
      ensures qu == old(qu) + [request]
    {
      qu := qu + [request];
    }

    method Peek() returns (req: Option<Request>)
      ensures qu == [] ==> req == None
      ensures qu != [] ==> req == Some(qu[0])
    {
      if |qu| == 0 {
        return None;
      }
      return Some(qu[0]);
    }

    method Pop()
      modifies this
      ensures old(qu) == [] ==> qu == []
      ensures old(qu) != [] ==> [old(qu)[0]] + qu == old(qu)
    {
      if |qu| != 0 {
        qu := qu[1..];
      }
    }

    /** A copy of the queue without payload channels; later queue operations do not affect it. */
    method Snapshot() returns (slice: seq<Sampled>)
      ensures slice == FromQueue(qu) && |slice| == |qu|
      ensures forall i | 0 <= i < |qu| ::
        && slice[i].id == qu[i].id && slice[i].func == qu[i].func
        && slice[i].cpu == qu[i].cpu && slice[i].memory == qu[i].memory
    {
      slice := [];
      for i := 0 to |qu|
        invariant slice == FromQueue(qu)[..i]
      {
        slice := slice + [FromRequest(qu[i])];
      }
    }
  }

  /** GetAllReq: the queue snapshot first, then the rows of the placement table. */
  method GetAllReq(queue: ReqQueue, table: Option<seq<Row>>) returns (allReq: Option<seq<Sampled>>)
    ensures table.None? ==> allReq == None
    ensures table.Some? ==> allReq == Some(Sample(queue.qu, table.value))
    ensures table.Some? ==>
      var n, all, rows := |queue.qu|, allReq.value, table.value;
      && |all| == n + |rows|
      && (forall i | 0 <= i < n ::
            && all[i].id == queue.qu[i].id && all[i].func == queue.qu[i].func
            && all[i].cpu == queue.qu[i].cpu && all[i].memory == queue.qu[i].memory)
      && (forall i | 0 <= i < |rows| ::
            && all[n + i].id == rows[i].reqId && all[n + i].func == rows[i].func
            && all[n + i].cpu == rows[i].cpu && all[n + i].memory == rows[i].memory)
  {
    var queuedReqs := queue.Snapshot();
    match table {
      case None => return None;
      case Some(scheduledReqs) =>
        var all: seq<Sampled> := [];
        for i := 0 to |queuedReqs|
          invariant all == queuedReqs[..i]
        {
          all := all + [queuedReqs[i]];
        }
        for i := 0 to |scheduledReqs|
          invariant all == queuedReqs + FromTable(scheduledReqs)[..i]
        {
          all := all + [FromRow(scheduledReqs[i])];
        }
        assert FromTable(scheduledReqs)[..|scheduledReqs|] == FromTable(scheduledReqs);
        return Some(all);
    }
  }
}
