/** Tables, batches and row processing of the audit outbox mover, as values. */
module OutboxProtocol {
  import opened Common
  import opened LruRetryCache

  const BATCH_SIZE: nat := 500
  const MAX_RETRY_COUNT: nat := 3
  const MAX_RETRY_CACHE_SIZE: nat := 1000

  /** A row of the outbox table; `createdAt` orders the batches. */
  datatype Row = Row(id: string, createdAt: int, processed: bool)

  /** Committed tables. `log` holds, for every row of the audit log, the outbox row it came from. */
  datatype Tables = Tables(outbox: seq<Row>, log: multiset<string>)

  /** What the database answers when one row is moved: inserted, refused, or refused for want of a
      partition, followed by one attempt to create it and, if that works, one more insert. */
  datatype Attempt = Inserted | Refused | NoPartition(created: bool, reinserted: bool)

  type Attempts = map<string, Attempt>

  predicate Landed(attempts: Attempts, id: string) {
    id in attempts &&
    (attempts[id].Inserted? || (attempts[id].NoPartition? && attempts[id].created && attempts[id].reinserted))
  }

  /** The volatile side of a batch: the retry cache, the two id lists and the pending inserts. */
  datatype Work = Work(cache: Cache, succeeded: seq<string>, poisoned: seq<string>, inserts: seq<string>)

  function Start(cache: Cache): Work {
    Work(cache, [], [], [])
  }

  function ProcessRow(w: Work, id: string, landed: bool, max: nat): Work {
    if Count(w.cache, id) >= MAX_RETRY_COUNT then
      w.(poisoned := w.poisoned + [id], cache := Cleared(w.cache, id))
    else if landed then
      w.(succeeded := w.succeeded + [id], inserts := w.inserts + [id], cache := Cleared(w.cache, id))
    else
      w.(cache := Incremented(w.cache, id, max))
  }

  function ProcessRows(w: Work, ids: seq<string>, attempts: Attempts, max: nat): Work {
    if ids == [] then w
    else
      var n := |ids| - 1;
      ProcessRow(ProcessRows(w, ids[..n], attempts, max), ids[n], Landed(attempts, ids[n]), max)
  }

  function Ids(rows: seq<Row>): (ids: seq<string>)
    ensures |ids| == |rows|
    ensures forall i :: 0 <= i < |rows| ==> ids[i] == rows[i].id
  {
    if rows == [] then [] else [rows[0].id] + Ids(rows[1..])
  }

  function Pending(outbox: seq<Row>): (rows: seq<Row>)
    ensures forall r :: r in rows <==> r in outbox && !r.processed
  {
    if outbox == [] then []
    else if outbox[0].processed then Pending(outbox[1..])
    else [outbox[0]] + Pending(outbox[1..])
  }

  function Deleted(outbox: seq<Row>, ids: seq<string>): seq<Row> {
    if outbox == [] then []
    else if outbox[0].id in ids then Deleted(outbox[1..], ids)
    else [outbox[0]] + Deleted(outbox[1..], ids)
  }

  function Marked(outbox: seq<Row>, ids: seq<string>): (r: seq<Row>)
    ensures |r| == |outbox|
    ensures forall i :: 0 <= i < |r| ==>
              r[i] == if outbox[i].id in ids then outbox[i].(processed := true) else outbox[i]
  {
    if outbox == [] then []
    else [if outbox[0].id in ids then outbox[0].(processed := true) else outbox[0]] + Marked(outbox[1..], ids)
  }

  /** The effect of committing a batch. */
  function Settled(t: Tables, w: Work): Tables {
    Tables(Marked(Deleted(t.outbox, w.succeeded), w.poisoned), t.log + multiset(w.inserts))
  }

  /** The answer of the batch query: at most BATCH_SIZE unprocessed rows nobody else has locked, all
      of them when fewer exist, none younger than a row left out, oldest first. */
  ghost predicate Selected(outbox: seq<Row>, locked: set<string>, rows: seq<Row>) {
    && NoDup(rows)
    && |rows| <= BATCH_SIZE
    && (forall r :: r in rows ==> r in outbox && !r.processed && r.id !in locked)
    && (forall r :: r in outbox && !r.processed && r.id !in locked && r !in rows ==>
          |rows| == BATCH_SIZE && forall p :: p in rows ==> p.createdAt <= r.createdAt)
    && (forall i, j :: 0 <= i < j < |rows| ==> rows[i].createdAt <= rows[j].createdAt)
  }

  ghost predicate DistinctIds(outbox: seq<Row>) {
    forall i, j :: 0 <= i < j < |outbox| ==> outbox[i].id != outbox[j].id
  }

  ghost predicate ArrivedInOrder(outbox: seq<Row>) {
    forall i, j :: 0 <= i < j < |outbox| ==> outbox[i].createdAt < outbox[j].createdAt
  }

  // ---------------------------------------------------------------------------
  // Facts about pending rows
  // ---------------------------------------------------------------------------

  lemma ConsDistinct(first: Row, rest: seq<Row>)
    requires DistinctIds(rest) && forall r :: r in rest ==> r.id != first.id
    ensures DistinctIds([first] + rest)
  {
    forall i, j | 0 <= i < j < |rest| + 1 ensures ([first] + rest)[i].id != ([first] + rest)[j].id {
      assert rest[j - 1] in rest;
    }
  }

  lemma ConsInOrder(first: Row, rest: seq<Row>)
    requires ArrivedInOrder(rest) && forall r :: r in rest ==> first.createdAt < r.createdAt
    ensures ArrivedInOrder([first] + rest)
  {
    forall i, j | 0 <= i < j < |rest| + 1 ensures ([first] + rest)[i].createdAt < ([first] + rest)[j].createdAt {
      assert rest[j - 1] in rest;
    }
  }

  lemma TailDistinct(rows: seq<Row>)
    requires rows != [] && DistinctIds(rows)
    ensures DistinctIds(rows[1..]) && forall r :: r in rows[1..] ==> r.id != rows[0].id
  {
  }

  lemma TailInOrder(rows: seq<Row>)
    requires rows != [] && ArrivedInOrder(rows)
    ensures ArrivedInOrder(rows[1..]) && forall r :: r in rows[1..] ==> rows[0].createdAt < r.createdAt
  {
  }

  lemma {:induction false} PendingDistinct(outbox: seq<Row>)
    requires DistinctIds(outbox)
    ensures DistinctIds(Pending(outbox))
  {
    if outbox != [] {
      TailDistinct(outbox);
      PendingDistinct(outbox[1..]);
      ConsDistinct(outbox[0], Pending(outbox[1..]));
    }
  }

  lemma {:induction false} PendingInOrder(outbox: seq<Row>)
    requires ArrivedInOrder(outbox)
    ensures ArrivedInOrder(Pending(outbox))
  {
    if outbox != [] {
      TailInOrder(outbox);
      PendingInOrder(outbox[1..]);
      ConsInOrder(outbox[0], Pending(outbox[1..]));
    }
  }

  lemma PendingOrdered(outbox: seq<Row>)
    requires DistinctIds(outbox) && ArrivedInOrder(outbox)
    ensures DistinctIds(Pending(outbox)) && ArrivedInOrder(Pending(outbox))
  {
    PendingDistinct(outbox);
    PendingInOrder(outbox);
  }

  lemma {:induction false} PendingAppend(outbox: seq<Row>, r: Row)
    ensures Pending(outbox + [r]) == Pending(outbox) + (if r.processed then [] else [r])
  {
    if outbox == [] {
      assert outbox + [r] == [r];
    } else {
      assert (outbox + [r])[0] == outbox[0] && (outbox + [r])[1..] == outbox[1..] + [r];
      PendingAppend(outbox[1..], r);
    }
  }

  lemma IdsAppend(a: seq<Row>, b: seq<Row>)
    ensures Ids(a + b) == Ids(a) + Ids(b)
  {
  }

  lemma {:induction false} DeletedRows(outbox: seq<Row>, ids: seq<string>)
    ensures forall r :: r in Deleted(outbox, ids) <==> r in outbox && r.id !in ids
  {
    if outbox != [] {
      DeletedRows(outbox[1..], ids);
      assert forall r :: r in outbox <==> r == outbox[0] || r in outbox[1..];
    }
  }

  lemma {:induction false} DeletedDistinct(outbox: seq<Row>, ids: seq<string>)
    requires DistinctIds(outbox)
    ensures DistinctIds(Deleted(outbox, ids))
  {
    if outbox != [] {
      TailDistinct(outbox);
      DeletedDistinct(outbox[1..], ids);
      DeletedRows(outbox[1..], ids);
      ConsDistinct(outbox[0], Deleted(outbox[1..], ids));
    }
  }

  lemma {:induction false} DeletedInOrder(outbox: seq<Row>, ids: seq<string>)
    requires ArrivedInOrder(outbox)
    ensures ArrivedInOrder(Deleted(outbox, ids))
  {
    if outbox != [] {
      TailInOrder(outbox);
      DeletedInOrder(outbox[1..], ids);
      DeletedRows(outbox[1..], ids);
      ConsInOrder(outbox[0], Deleted(outbox[1..], ids));
    }
  }

  /** What is still pending after a commit. */
  lemma {:induction false} SettledPending(outbox: seq<Row>, succeeded: seq<string>, poisoned: seq<string>)
    ensures Ids(Pending(Marked(Deleted(outbox, succeeded), poisoned))) ==
            Filter(Ids(Pending(outbox)), Elems(succeeded) + Elems(poisoned))
  {
    if outbox != [] {
      SettledPending(outbox[1..], succeeded, poisoned);
    }
  }

  lemma PendingPosition(p: seq<Row>, rows: seq<Row>, n: nat, k: nat)
    requires DistinctIds(p) && n <= |rows| && n <= |p| && k < |p|
    requires forall j :: 0 <= j < n ==> rows[j] == p[j]
    ensures k >= n ==> forall j :: 0 <= j < n ==> rows[j] != p[k]
  {
  }

  /** No selected row beyond the agreed prefix is younger than the next pending row. */
  lemma NextIsOldest(outbox: seq<Row>, p: seq<Row>, rows: seq<Row>, i: nat)
    requires p == Pending(outbox) && DistinctIds(p) && Selected(outbox, {}, rows)
    requires i < |rows| && i < |p|
    requires forall j :: 0 <= j < i ==> rows[j] == p[j]
    ensures rows[i].createdAt <= p[i].createdAt
  {
    assert p[i] in p && rows[i] in rows;
    PendingPosition(p, rows, i, i);
    if p[i] in rows {
      var k :| 0 <= k < |rows| && rows[k] == p[i];
      assert k >= i;
    }
  }

  lemma {:induction false} SelectedNext(outbox: seq<Row>, p: seq<Row>, rows: seq<Row>, i: nat)
    requires p == Pending(outbox) && DistinctIds(p) && ArrivedInOrder(p)
    requires Selected(outbox, {}, rows)
    requires i < |rows| && i <= |p|
    requires forall j :: 0 <= j < i ==> rows[j] == p[j]
    ensures i < |p| && rows[i] == p[i]
  {
    assert rows[i] in rows && rows[i] in p;
    var m :| 0 <= m < |p| && p[m] == rows[i];
    assert m >= i;
    NextIsOldest(outbox, p, rows, i);
  }

  lemma {:induction false} SelectedPrefix(outbox: seq<Row>, rows: seq<Row>, i: nat)
    requires DistinctIds(outbox) && ArrivedInOrder(outbox) && Selected(outbox, {}, rows)
    requires i <= |rows|
    ensures i <= |Pending(outbox)|
    ensures forall j :: 0 <= j < i ==> rows[j] == Pending(outbox)[j]
  {
    if i > 0 {
      SelectedPrefix(outbox, rows, i - 1);
      PendingOrdered(outbox);
      SelectedNext(outbox, Pending(outbox), rows, i - 1);
    }
  }

  /** When rows arrive in strictly increasing order and nothing is locked, the query has one answer:
      the first BATCH_SIZE pending rows. */
  lemma SelectedIsOldest(outbox: seq<Row>, rows: seq<Row>)
    requires DistinctIds(outbox) && ArrivedInOrder(outbox) && Selected(outbox, {}, rows)
    ensures rows == Pending(outbox)[..Min(BATCH_SIZE, |Pending(outbox)|)]
  {
    var p := Pending(outbox);
    SelectedPrefix(outbox, rows, |rows|);
    PendingOrdered(outbox);
    if |rows| < |p| {
      PendingPosition(p, rows, |rows|, |rows|);
      assert p[|rows|] in p && p[|rows|] !in rows;
    }
  }
}
