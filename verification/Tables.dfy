/** The placement table and the queries made on it.

    Tables are kept in insertion order.  Every query is defined from the end of the table, so
    that inserting a row unfolds one step. */
module Tables {
  import opened Types

  datatype Resource = Cpu | Memory | Tasks

  function Weight(row: Row, r: Resource): int {
    match r
    case Cpu => row.cpu
    case Memory => row.memory
    case Tasks => 1
  }

  /** What the rows placed on `service` occupy of resource `r`. */
  function Load(rows: seq<Row>, service: nat, r: Resource): int {
    if rows == [] then 0
    else
      var last := rows[|rows| - 1];
      Load(rows[..|rows| - 1], service, r) + if last.service == service then Weight(last, r) else 0
  }

  function RowsOfFunction(rows: seq<Row>, func: string): (r: seq<Row>)
    ensures forall row :: row in r <==> row in rows && row.func == func
  {
    if rows == [] then []
    else
      var last := rows[|rows| - 1];
      RowsOfFunction(rows[..|rows| - 1], func) + if last.func == func then [last] else []
  }

  function RowsOnService(rows: seq<Row>, service: nat): (r: seq<Row>)
    ensures forall row :: row in r <==> row in rows && row.service == service
  {
    if rows == [] then []
    else
      var last := rows[|rows| - 1];
      RowsOnService(rows[..|rows| - 1], service) + if last.service == service then [last] else []
  }

  function WithoutRequest(rows: seq<Row>, reqId: nat): (r: seq<Row>)
    ensures forall row :: row in r <==> row in rows && row.reqId != reqId
  {
    if rows == [] then []
    else
      var last := rows[|rows| - 1];
      WithoutRequest(rows[..|rows| - 1], reqId) + if last.reqId != reqId then [last] else []
  }

  /** The table once all the given requests are deleted. */
  function WithoutAll(rows: seq<Row>, ids: set<nat>): seq<Row> {
    if rows == [] then []
    else
      var last := rows[|rows| - 1];
      WithoutAll(rows[..|rows| - 1], ids) + if last.reqId !in ids then [last] else []
  }

  ghost predicate DistinctIds(rows: seq<Row>) {
    forall i, j | 0 <= i < j < |rows| :: rows[i].reqId != rows[j].reqId
  }

  /** Counting tasks never needs an assumption; the two resources need non-negative rows. */
  ghost predicate Weighable(rows: seq<Row>, r: Resource) {
    r.Tasks? || forall row | row in rows :: Weight(row, r) >= 0
  }

  lemma FrontAndLast<T>(s: seq<T>)
    requires s != []
    ensures s[..|s| - 1] + [s[|s| - 1]] == s
  {}

  lemma LoadOfInsert(rows: seq<Row>, row: Row, service: nat, r: Resource)
    ensures Load(rows + [row], service, r)
         == Load(rows, service, r) + if row.service == service then Weight(row, r) else 0
  {
    assert (rows + [row])[..|rows|] == rows;
  }

  /** Deleting the row of a request lowers the load of its service by that row, and no other load. */
  lemma {:induction false} LoadOfDelete(rows: seq<Row>, row: Row, service: nat, r: Resource)
    requires DistinctIds(rows) && row in rows
    ensures Load(WithoutRequest(rows, row.reqId), service, r)
         == Load(rows, service, r) - if row.service == service then Weight(row, r) else 0
  {
    var front, last := rows[..|rows| - 1], rows[|rows| - 1];
    if last == row {
      NothingToDelete(front, row.reqId);
      assert WithoutRequest(rows, row.reqId) == front;
    } else {
      assert row in front;
      LoadOfDelete(front, row, service, r);
      assert WithoutRequest(rows, row.reqId) == WithoutRequest(front, row.reqId) + [last];
      LoadOfInsert(WithoutRequest(front, row.reqId), last, service, r);
    }
  }

  lemma WithoutRequestSnoc(front: seq<Row>, last: Row, id: nat)
    ensures last.reqId == id ==> WithoutRequest(front + [last], id) == WithoutRequest(front, id)
    ensures last.reqId != id ==> WithoutRequest(front + [last], id) == WithoutRequest(front, id) + [last]
  {
    assert (front + [last])[..|front|] == front;
  }

  lemma {:induction false} NothingToDelete(rows: seq<Row>, reqId: nat)
    requires forall i | 0 <= i < |rows| :: rows[i].reqId != reqId
    ensures WithoutRequest(rows, reqId) == rows
  {
    if rows != [] {
      var front, last := rows[..|rows| - 1], rows[|rows| - 1];
      NothingToDelete(front, reqId);
      WithoutRequestSnoc(front, last, reqId);
      FrontAndLast(rows);
    }
  }

  lemma {:induction false} WithoutAllMembers(rows: seq<Row>, ids: set<nat>)
    ensures forall row :: row in WithoutAll(rows, ids) <==> row in rows && row.reqId !in ids
  {
    if rows != [] {
      var front, last := rows[..|rows| - 1], rows[|rows| - 1];
      WithoutAllMembers(front, ids);
      assert forall row :: row in rows <==> row in front || row == last;
    }
  }

  lemma {:induction false} WithoutNone(rows: seq<Row>)
    ensures WithoutAll(rows, {}) == rows
  {
    if rows != [] {
      var front, last := rows[..|rows| - 1], rows[|rows| - 1];
      WithoutNone(front);
      FrontAndLast(rows);
    }
  }

  lemma WithoutAllSnoc(front: seq<Row>, last: Row, ids: set<nat>)
    ensures last.reqId in ids ==> WithoutAll(front + [last], ids) == WithoutAll(front, ids)
    ensures last.reqId !in ids ==> WithoutAll(front + [last], ids) == WithoutAll(front, ids) + [last]
  {
    assert (front + [last])[..|front|] == front;
  }

  lemma OneAndOthersSnoc(front: seq<Row>, last: Row, id: nat, ids: set<nat>)
    requires WithoutAll(WithoutRequest(front, id), ids) == WithoutAll(front, ids + {id})
    ensures WithoutAll(WithoutRequest(front + [last], id), ids) == WithoutAll(front + [last], ids + {id})
  {
    WithoutRequestSnoc(front, last, id);
    WithoutAllSnoc(front, last, ids + {id});
    WithoutAllSnoc(WithoutRequest(front, id), last, ids);
  }

  /** Deletions commute: one request and then the others is all of them. */
  lemma {:induction false} WithoutOneAndOthers(rows: seq<Row>, id: nat, ids: set<nat>)
    ensures WithoutAll(WithoutRequest(rows, id), ids) == WithoutAll(rows, ids + {id})
  {
    if rows != [] {
      var front, last := rows[..|rows| - 1], rows[|rows| - 1];
      WithoutOneAndOthers(front, id, ids);
      OneAndOthersSnoc(front, last, id, ids);
      FrontAndLast(rows);
    }
  }

  lemma DeleteRaisesNoLoad(rows: seq<Row>, reqId: nat, service: nat, r: Resource)
    requires DistinctIds(rows) && Weighable(rows, r)
    ensures Load(WithoutRequest(rows, reqId), service, r) <= Load(rows, service, r)
  {
    if row :| row in rows && row.reqId == reqId {
      LoadOfDelete(rows, row, service, r);
    } else {
      assert forall i | 0 <= i < |rows| :: rows[i] in rows;
      NothingToDelete(rows, reqId);
    }
  }

  /** Reading only the rows of one function loses nothing on a service that runs that function. */
  lemma {:induction false} LoadOfFunction(rows: seq<Row>, func: string, service: nat, r: Resource)
    requires forall row | row in rows && row.service == service :: row.func == func
    ensures Load(RowsOfFunction(rows, func), service, r) == Load(rows, service, r)
  {
    if rows != [] {
      var front, last := rows[..|rows| - 1], rows[|rows| - 1];
      assert last in rows && forall row | row in front :: row in rows;
      LoadOfFunction(front, func, service, r);
      if last.func == func {
        assert RowsOfFunction(rows, func) == RowsOfFunction(front, func) + [last];
        LoadOfInsert(RowsOfFunction(front, func), last, service, r);
      } else {
        assert RowsOfFunction(rows, func) == RowsOfFunction(front, func);
      }
    }
  }

  lemma {:induction false} EmptyLoad(rows: seq<Row>, service: nat, r: Resource)
    requires forall row | row in rows :: row.service != service
    ensures Load(rows, service, r) == 0
  {
    if rows != [] {
      var front, last := rows[..|rows| - 1], rows[|rows| - 1];
      assert last in rows && forall row | row in front :: row in rows;
      EmptyLoad(front, service, r);
    }
  }

  /** A row on the service is part of its load; in particular it counts as one task. */
  lemma {:induction false} LoadCoversRow(rows: seq<Row>, row: Row, r: Resource)
    requires row in rows && Weighable(rows, r)
    ensures Load(rows, row.service, r) >= Weight(row, r)
  {
    var front, last := rows[..|rows| - 1], rows[|rows| - 1];
    assert last in rows && forall x | x in front :: x in rows;
    if row in front {
      LoadCoversRow(front, row, r);
    } else {
      NonNegativeLoad(front, row.service, r);
    }
  }

  lemma {:induction false} NonNegativeLoad(rows: seq<Row>, service: nat, r: Resource)
    requires Weighable(rows, r)
    ensures Load(rows, service, r) >= 0
  {
    if rows != [] {
      var front, last := rows[..|rows| - 1], rows[|rows| - 1];
      assert last in rows && forall x | x in front :: x in rows;
      NonNegativeLoad(front, service, r);
    }
  }

  lemma {:induction false} DeleteKeepsDistinct(rows: seq<Row>, reqId: nat)
    requires DistinctIds(rows)
    ensures DistinctIds(WithoutRequest(rows, reqId))
  {
    if rows != [] {
      var front, last := rows[..|rows| - 1], rows[|rows| - 1];
      DeleteKeepsDistinct(front, reqId);
      assert forall x | x in front :: x.reqId != last.reqId;
      assert forall x | x in WithoutRequest(front, reqId) :: x.reqId != last.reqId;
    }
  }

  /** The rows read by the drain routine are empty exactly when no task is counted there. */
  lemma NoRowsNoTasks(rows: seq<Row>, service: nat)
    ensures RowsOnService(rows, service) == [] <==> Load(rows, service, Tasks) == 0
  {
    var on := RowsOnService(rows, service);
    if on == [] {
      EmptyLoad(rows, service, Tasks);
    } else {
      assert on[0] in on;
      LoadCoversRow(rows, on[0], Tasks);
    }
  }
}
