/** The list of live requests that the auto-scaler takes: the queue first, then the placement table. */
module Sampling {
  import opened Types

  function FromRequest(req: Request): Sampled { Sampled(req.id, req.func, req.cpu, req.memory) }
  function FromRow(row: Row): Sampled { Sampled(row.reqId, row.func, row.cpu, row.memory) }

  function FromQueue(queue: seq<Request>): (r: seq<Sampled>)
    ensures |r| == |queue| && forall i | 0 <= i < |queue| :: r[i] == FromRequest(queue[i])
  {
    seq(|queue|, i requires 0 <= i < |queue| => FromRequest(queue[i]))
  }

  function FromTable(rows: seq<Row>): (r: seq<Sampled>)
    ensures |r| == |rows| && forall i | 0 <= i < |rows| :: r[i] == FromRow(rows[i])
  {
    seq(|rows|, i requires 0 <= i < |rows| => FromRow(rows[i]))
  }

  function Sample(queue: seq<Request>, rows: seq<Row>): seq<Sampled> {
    FromQueue(queue) + FromTable(rows)
  }

  function Occurrences(sample: seq<Sampled>, id: nat): nat {
    if sample == [] then 0
    else Occurrences(sample[..|sample| - 1], id) + if sample[|sample| - 1].id == id then 1 else 0
  }

  lemma {:induction false} OccurrencesAppend(a: seq<Sampled>, b: seq<Sampled>, id: nat)
    ensures Occurrences(a + b, id) == Occurrences(a, id) + Occurrences(b, id)
  {
    if b == [] {
      assert a + b == a;
    } else {
      assert (a + b)[..|a + b| - 1] == a + b[..|b| - 1];
      OccurrencesAppend(a, b[..|b| - 1], id);
    }
  }

  /** A list without repeated ids contains an id once or not at all. */
  lemma {:induction false} OccursOnce(sample: seq<Sampled>, id: nat)
    requires forall i, j | 0 <= i < j < |sample| :: sample[i].id != sample[j].id
    ensures Occurrences(sample, id) == if exists i :: 0 <= i < |sample| && sample[i].id == id then 1 else 0
  {
    if sample != [] {
      var n := |sample| - 1;
      OccursOnce(sample[..n], id);
      if sample[n].id == id {
        assert forall i | 0 <= i < n :: sample[i].id != id;
      } else {
        assert forall i | 0 <= i < n :: sample[..n][i] == sample[i];
      }
    }
  }
}
