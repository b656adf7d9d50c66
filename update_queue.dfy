// upstream_update_queue.py: the persistent FIFO of task updates waiting to be
// posted to Flamenco Manager. The SQLite table is a sequence of rows in rowid
// order; the Manager's replies are an input of the model.
module UpdateQueue {
  import opened Wrappers
  import opened Text
  import opened Values

  /** Seconds flush_and_catch waits after a failed flush. */
  const BackoffTime: nat := 5
  /** One flush stops once it has handled more than this many items. */
  const FlushBreak: nat := 1000

  /** One row of the fworker_queue table: its rowid, the URL and the (unpickled) payload. */
  datatype Row = Row(rowid: nat, url: string, payload: Value)

  /** What manager.post gives back for one queued update: a response, or the exception it raises. */
  datatype Reply = Response(status: int) | PostFailed(exc: Exception)

  /** The Manager, as far as the queue sees it: the reply to posting a row. */
  type Manager = Row -> Reply

  /** Rows the way `ORDER BY rowid ASC` returns them: each rowid below the next. */
  predicate Ascending(rows: seq<Row>)
    decreases |rows|
  {
    |rows| <= 1 || (rows[0].rowid < rows[1].rowid && Ascending(rows[1..]))
  }

  /** In ascending rows, the first rowid is below every later one. */
  lemma {:induction false} AscendingFirst(rows: seq<Row>, i: nat)
    requires Ascending(rows) && 0 < i < |rows|
    ensures rows[0].rowid < rows[i].rowid
    decreases i
  {
    if i > 1 {
      AscendingFirst(rows[1..], i - 1);
    }
  }

  /** In ascending rows, the last rowid is the largest. */
  lemma {:induction false} AscendingLast(rows: seq<Row>)
    requires Ascending(rows) && rows != []
    ensures forall i :: 0 <= i < |rows| ==> rows[i].rowid <= rows[|rows| - 1].rowid
    decreases |rows|
  {
    if |rows| > 1 {
      AscendingLast(rows[1..]);
      assert forall i :: 1 <= i < |rows| ==> rows[i] == rows[1..][i - 1];
    }
  }

  lemma {:induction false} AscendingSuffix(rows: seq<Row>, k: nat)
    requires Ascending(rows) && k <= |rows|
    ensures Ascending(rows[k..])
    decreases k
  {
    if k > 0 {
      AscendingSuffix(rows[1..], k - 1);
      assert rows[1..][k - 1..] == rows[k..];
    }
  }

  lemma {:induction false} AscendingAppend(rows: seq<Row>, r: Row)
    requires Ascending(rows) && (rows != [] ==> rows[|rows| - 1].rowid < r.rowid)
    ensures Ascending(rows + [r])
    decreases |rows|
  {
    if |rows| > 1 {
      AscendingAppend(rows[1..], r);
      assert (rows + [r])[1..] == rows[1..] + [r];
    }
  }

  /** The rowid SQLite gives the next insert: one more than the largest, 1 in an empty table. */
  function NextRowid(rows: seq<Row>): (id: nat)
    requires Ascending(rows)
    ensures forall i :: 0 <= i < |rows| ==> rows[i].rowid < id
  {
    if rows == [] then 1 else AscendingLast(rows); rows[|rows| - 1].rowid + 1
  }

  /** The table after `INSERT INTO fworker_queue`. */
  function Enqueue(rows: seq<Row>, url: string, payload: Value): (r: seq<Row>)
    requires Ascending(rows)
    ensures Ascending(r) && |r| == |rows| + 1
    ensures rows <= r && r[..|rows|] == rows && r[|rows|].url == url && r[|rows|].payload == payload
    ensures forall i :: 0 <= i < |rows| ==> rows[i].rowid < r[|rows|].rowid
  {
    var row := Row(NextRowid(rows), url, payload);
    AscendingAppend(rows, row);
    assert (rows + [row])[..|rows|] == rows;
    rows + [row]
  }

  /** The table after `DELETE FROM fworker_queue WHERE rowid=?`. */
  function Without(rows: seq<Row>, rowid: nat): (r: seq<Row>)
    ensures |r| <= |rows|
    ensures forall i :: 0 <= i < |r| ==> r[i].rowid != rowid
  {
    if rows == [] then []
    else if rows[0].rowid == rowid then Without(rows[1..], rowid)
    else [rows[0]] + Without(rows[1..], rowid)
  }

  lemma {:induction false} WithoutAbsent(rows: seq<Row>, rowid: nat)
    requires forall i :: 0 <= i < |rows| ==> rows[i].rowid != rowid
    ensures Without(rows, rowid) == rows
  {
    if rows != [] {
      WithoutAbsent(rows[1..], rowid);
    }
  }

  /** Deleting the oldest row of the table leaves the rest in order. */
  lemma WithoutFirst(rows: seq<Row>)
    requires Ascending(rows) && rows != []
    ensures Without(rows, rows[0].rowid) == rows[1..] && Ascending(rows[1..])
  {
    forall i | 0 <= i < |rows[1..]| ensures rows[1..][i].rowid != rows[0].rowid {
      AscendingFirst(rows, i + 1);
    }
    WithoutAbsent(rows[1..], rows[0].rowid);
  }

  function HttpError(status: int): Exception
  {
    Exception("HTTPError", IntToString(status))
  }

  /** Whether raise_for_status() raises: a 4xx or 5xx status. */
  predicate ErrorStatus(status: int) { 400 <= status < 600 }

  /**
   * What flush does with the reply to one row: None to unqueue it (a 409 or a
   * status raise_for_status accepts), or the exception that ends the flush.
   */
  function PostError(reply: Reply): (e: Option<Exception>)
    ensures e.None? <==> reply.Response? && (reply.status == 409 || !ErrorStatus(reply.status))
    ensures reply.PostFailed? ==> e == Some(reply.exc)
  {
    match reply
    case PostFailed(exc) => Some(exc)
    case Response(status) =>
      if status == 409 then None
      else if ErrorStatus(status) then Some(HttpError(status))
      else None
  }

  /** How far a flush pass gets: the number of rows removed, and the exception that stopped it. */
  datatype Pass = Pass(removed: nat, error: Option<Exception>)

  /** The loop of flush from row i on, over the rows the query returned. */
  function Drain(rows: seq<Row>, manager: Manager, i: nat): (p: Pass)
    requires i <= |rows|
    ensures i <= p.removed <= |rows|
    ensures p.error.Some? ==> p.removed < |rows|
    decreases |rows| - i
  {
    if i == |rows| then Pass(i, None)
    else match PostError(manager(rows[i]))
      case Some(e) => Pass(i, Some(e))
      case None => if i + 1 > FlushBreak then Pass(i + 1, None) else Drain(rows, manager, i + 1)
  }

  /**
   * A flush pass removes a prefix of the rows in FIFO order, each only after an
   * accepted reply; it stops at the first rejected row, which stays queued, or
   * after 1001 rows, or at the end.
   */
  lemma {:induction false} DrainFacts(rows: seq<Row>, manager: Manager, i: nat)
    requires i <= |rows| && i <= FlushBreak
    ensures var p := Drain(rows, manager, i);
      i <= p.removed <= |rows| && p.removed <= FlushBreak + 1 &&
      (forall k :: i <= k < p.removed ==> PostError(manager(rows[k])).None?) &&
      (p.error.Some? ==> p.removed < |rows| && p.removed <= FlushBreak && PostError(manager(rows[p.removed])) == p.error) &&
      (p.error.None? && p.removed < |rows| ==> p.removed == FlushBreak + 1)
    decreases |rows| - i
  {
    if i < |rows| && PostError(manager(rows[i])).None? && i + 1 <= FlushBreak {
      DrainFacts(rows, manager, i + 1);
    }
  }

  /**
   * What flush gives: its result, the rows left queued, and the rows posted. It
   * raises what stopped the pass, and otherwise returns whether the table was empty.
   */
  function FlushOutcome(rows: seq<Row>, manager: Manager): (Result<bool>, seq<Row>, seq<Row>)
  {
    var p := Drain(rows, manager, 0);
    (if p.error.Some? then Raise(p.error.value) else Ok(rows == []),
     rows[p.removed..],
     rows[..p.removed + (if p.error.Some? then 1 else 0)])
  }

  /** A 409 is discarded: a row answered 409 is removed without error, like an accepted one. */
  lemma ConflictIsDiscarded(rows: seq<Row>, manager: Manager, i: nat)
    requires i < |rows| && i < FlushBreak && manager(rows[i]) == Response(409)
    ensures Drain(rows, manager, i) == Drain(rows, manager, i + 1)
  {
  }

  /** Deleting the oldest remaining row, at any point of a pass, leaves the rows after it. */
  lemma WithoutAt(rows: seq<Row>, k: nat)
    requires Ascending(rows) && k < |rows|
    ensures Without(rows[k..], rows[k].rowid) == rows[k + 1..]
  {
    AscendingSuffix(rows, k);
    assert rows[k..][0] == rows[k] && rows[k..][1..] == rows[k + 1..];
    WithoutFirst(rows[k..]);
  }

  /** A pass that removes `handled` rows without error gives flush's normal return. */
  lemma PassEnds(rows: seq<Row>, manager: Manager, handled: nat)
    requires handled <= |rows|
    requires Drain(rows, manager, 0) == Pass(handled, None)
    ensures FlushOutcome(rows, manager) == (Ok(rows == []), rows[handled..], rows[..handled])
  {
  }

  /** The SQLite-backed queue: its rows, the _stuff_queued event and whether it is connected. */
  class TaskUpdateQueue {
    var rows: seq<Row>
    var stuffQueued: bool
    var connected: bool

    predicate Valid()
      reads this
    {
      Ascending(rows)
    }

    /** A queue over a database file that already holds `stored`. */
    constructor (stored: seq<Row>)
      requires Ascending(stored)
      ensures Valid() && rows == stored && !stuffQueued && !connected
    {
      rows := stored;
      stuffQueued := false;
      connected := false;
    }

    /** _disconnect_db: the rows stay in the database; the next call reconnects to them. */
    method Disconnect()
      modifies this
      ensures rows == old(rows) && stuffQueued == old(stuffQueued) && !connected
    {
      connected := false;
    }

    /** queue(url, payload): appends one row and sets the stuff-queued event. */
    method Queue(url: string, payload: Value)
      requires Valid()
      modifies this
      ensures Valid() && rows == Enqueue(old(rows), url, payload) && stuffQueued && connected
    {
      connected := true;
      rows := Enqueue(rows, url, payload);
      stuffQueued := true;
    }

    /** queue_size(): the number of rows. */
    method QueueSize() returns (n: nat)
      modifies this
      ensures n == |rows| && rows == old(rows) && stuffQueued == old(stuffQueued) && connected
    {
      connected := true;
      n := |rows|;
    }

    /** _unqueue(rowid). */
    method Unqueue(rowid: nat)
      requires Valid()
      modifies this
      ensures Valid() && rows == Without(old(rows), rowid)
      ensures stuffQueued == old(stuffQueued) && connected == old(connected)
    {
      rows := Without(rows, rowid);
      assert Ascending(rows) by { WithoutAscending(old(rows), rowid); }
    }

    /**
     * flush(): posts rows oldest first and unqueues each accepted one. It leaves the
     * rows the pass did not remove, in order, returns True iff the queue was empty
     * to begin with, and clears the event only then. `posted` is every post made.
     */
    method Flush(manager: Manager) returns (r: Result<bool>, posted: seq<Row>)
      requires Valid()
      modifies this
      ensures Valid()
      ensures (r, rows, posted) == FlushOutcome(old(rows), manager)
      ensures stuffQueued == (old(stuffQueued) && old(rows) != [])
    {
      // queue_size() and _queue() connect when not connected yet.
      connected := true;
      // The rows the SELECT returned; `rest` is the table as the pass unqueues them,
      // stored back into `rows` when the pass ends.
      var all := rows;
      var rest := all;
      ghost var pass := Drain(all, manager, 0);
      DrainFacts(all, manager, 0);
      var queueIsEmpty := true;
      var handled := 0;
      var failure: Option<Exception> := None;
      posted := [];
      while handled < |all|
        invariant 0 <= handled <= pass.removed && handled <= FlushBreak
        invariant rest == all[handled..] && posted == all[..handled]
        invariant queueIsEmpty == (handled == 0) && failure.None?
        modifies {}
        decreases |all| - handled
      {
        queueIsEmpty := false;
        var e := PostError(manager(all[handled]));
        posted := posted + [all[handled]];
        if e.Some? {
          assert handled == pass.removed && pass.error == e;
          assert posted == all[..pass.removed + 1];
          failure := e;
          break;
        }
        WithoutAt(all, handled);
        rest := Without(rest, all[handled].rowid);  // _unqueue(rowid)
        handled := handled + 1;
        if handled > FlushBreak {
          assert handled == pass.removed;
          break;
        }
      }
      if failure.Some? {
        AscendingSuffix(all, handled);
        rows := rest;
        r := Raise(failure.value);
        return;
      }
      assert handled == pass.removed && pass.error.None? && queueIsEmpty == (all == []);
      AscendingSuffix(all, handled);
      r := Ok(queueIsEmpty);
      PassEnds(all, manager, handled);
      rows := rest;
      if queueIsEmpty {
        stuffQueued := false;
      }
      assert r == Ok(all == []);
      assert rows == all[handled..];
      assert posted == all[..handled];
      assert all == old(rows);
    }

    /** flush_and_catch(): flushes, and on any error waits BackoffTime seconds instead of raising. */
    method FlushAndCatch(manager: Manager) returns (backoff: nat, posted: seq<Row>)
      requires Valid()
      modifies this
      ensures Valid()
      ensures rows == FlushOutcome(old(rows), manager).1 && posted == FlushOutcome(old(rows), manager).2
      ensures backoff == (if FlushOutcome(old(rows), manager).0.Raise? then BackoffTime else 0)
      ensures stuffQueued == (old(stuffQueued) && old(rows) != [])
    {
      var r;
      r, posted := Flush(manager);
      backoff := if r.Raise? then BackoffTime else 0;
    }

    /** flush_and_report(): one last flush whose errors are only logged. */
    method FlushAndReport(manager: Manager) returns (posted: seq<Row>)
      requires Valid()
      modifies this
      ensures Valid()
      ensures rows == FlushOutcome(old(rows), manager).1 && posted == FlushOutcome(old(rows), manager).2
      ensures stuffQueued == (old(stuffQueued) && old(rows) != [])
    {
      var r;
      r, posted := Flush(manager);
    }
  }

  lemma {:induction false} WithoutAscending(rows: seq<Row>, rowid: nat)
    requires Ascending(rows)
    ensures Ascending(Without(rows, rowid))
    ensures forall i :: 0 <= i < |Without(rows, rowid)| ==> Without(rows, rowid)[i] in rows
  {
    if rows != [] {
      WithoutAscending(rows[1..], rowid);
      var rest := Without(rows[1..], rowid);
      if rows[0].rowid != rowid && rest != [] {
        assert rest[0] in rows[1..];
        var j :| 0 <= j < |rows[1..]| && rows[1..][j] == rest[0];
        AscendingFirst(rows, j + 1);
        assert ([rows[0]] + rest)[1..] == rest;
      }
    }
  }

  /** Updates queued one after the other are offered to the Manager in the order they were queued. */
  lemma QueueIsFifo(rows: seq<Row>, u1: string, p1: Value, u2: string, p2: Value)
    requires Ascending(rows)
    ensures var r := Enqueue(Enqueue(rows, u1, p1), u2, p2);
      |r| == |rows| + 2 && r[..|rows|] == rows && r[|rows|].url == u1 && r[|rows| + 1].url == u2 &&
      r[|rows|].rowid < r[|rows| + 1].rowid
  {
    var r1 := Enqueue(rows, u1, p1);
    var r := Enqueue(r1, u2, p2);
    PrefixOfPrefix(rows, r1, r);
  }

  lemma PrefixOfPrefix(a: seq<Row>, b: seq<Row>, c: seq<Row>)
    requires |b| == |a| + 1 && a <= b && b <= c
    ensures c[..|a|] == a && c[|a|] == b[|a|]
  {
    assert c[..|a|] == c[..|b|][..|a|];
  }
}
