/** Any number of movers over one outbox, interleaved row by row: every entry stays in one place. */
module OutboxMovers {
  import opened Common
  import opened LruRetryCache
  import opened OutboxProtocol

  /** A mover between batches, or inside the transaction of one: the rows it has locked, how many of
      them it has worked through, and its uncommitted work. */
  datatype Mover =
    | Idle(cache: Cache)
    | Moving(ids: seq<string>, done: nat, work: Work)

  /** `arrived` is every id ever committed to the outbox. */
  datatype System = System(tables: Tables, movers: seq<Mover>, arrived: set<string>)

  /** Steps. A rollback stands for a failed commit, an exception between rows, or a cancellation; a
      crash also loses the retry cache. A commit counts as one whether or not it is acknowledged. */
  datatype Action =
    | Arrive(row: Row)
    | Begin(mover: nat, rows: seq<Row>)
    | HandleRow(mover: nat, landed: bool)
    | Commit(mover: nat)
    | Rollback(mover: nat)
    | Crash(mover: nat)

  ghost function Locked(movers: seq<Mover>): set<string> {
    set i, x | 0 <= i < |movers| && movers[i].Moving? && x in movers[i].ids :: x
  }

  /** Rows that a mover can have locked: distinct, unprocessed, and held by no one else. Which rows its query
      picks, and how many, plays no part. */
  ghost predicate Lockable(outbox: seq<Row>, locked: set<string>, rows: seq<Row>) {
    && NoDup(rows)
    && (forall r :: r in rows ==> r in outbox && !r.processed && r.id !in locked)
  }

  ghost predicate Enabled(s: System, a: Action) {
    match a
    case Arrive(row) => !row.processed && row.id !in s.arrived
    case Begin(m, rows) =>
      m < |s.movers| && s.movers[m].Idle? && Lockable(s.tables.outbox, Locked(s.movers), rows)
    case HandleRow(m, _) => m < |s.movers| && s.movers[m].Moving? && s.movers[m].done < |s.movers[m].ids|
    case Commit(m) => m < |s.movers| && s.movers[m].Moving? && s.movers[m].done == |s.movers[m].ids|
    case Rollback(m) => m < |s.movers| && s.movers[m].Moving?
    case Crash(m) => m < |s.movers|
  }

  function Step(s: System, a: Action): System
    requires Enabled(s, a)
  {
    match a
    case Arrive(row) =>
      s.(tables := s.tables.(outbox := s.tables.outbox + [row]), arrived := s.arrived + {row.id})
    case Begin(m, rows) => s.(movers := s.movers[m := Moving(Ids(rows), 0, Start(s.movers[m].cache))])
    case HandleRow(m, landed) =>
      var t := s.movers[m];
      s.(movers := s.movers[m :=
           Moving(t.ids, t.done + 1, ProcessRow(t.work, t.ids[t.done], landed, MAX_RETRY_CACHE_SIZE))])
    case Commit(m) =>
      s.(tables := Settled(s.tables, s.movers[m].work), movers := s.movers[m := Idle(s.movers[m].work.cache)])
    case Rollback(m) => s.(movers := s.movers[m := Idle(s.movers[m].work.cache)])
    case Crash(m) => s.(movers := s.movers[m := Idle(EMPTY)])
  }

  ghost predicate Initial(s: System) {
    s.tables == Tables([], multiset{}) && s.arrived == {} &&
    forall i :: 0 <= i < |s.movers| ==> s.movers[i] == Idle(EMPTY)
  }

  ghost predicate Reaches(s: System, actions: seq<Action>, t: System)
    decreases |actions|
  {
    if actions == [] then s == t
    else Enabled(s, actions[0]) && Reaches(Step(s, actions[0]), actions[1..], t)
  }

  // ---------------------------------------------------------------------------
  // The three places an entry can be in
  // ---------------------------------------------------------------------------

  /** The number of outbox rows with this id and flag. */
  function Rows(outbox: seq<Row>, id: string, processed: bool): nat {
    if outbox == [] then 0
    else (if outbox[0].id == id && outbox[0].processed == processed then 1 else 0) + Rows(outbox[1..], id, processed)
  }

  ghost predicate InOutbox(outbox: seq<Row>, id: string) {
    exists r :: r in outbox && r.id == id
  }

  ghost predicate Waiting(outbox: seq<Row>, id: string) {
    exists r :: r in outbox && r.id == id && !r.processed
  }

  lemma {:induction false} RowsCount(outbox: seq<Row>, id: string)
    requires DistinctIds(outbox)
    ensures Rows(outbox, id, false) + Rows(outbox, id, true) == if InOutbox(outbox, id) then 1 else 0
    ensures Rows(outbox, id, false) == if Waiting(outbox, id) then 1 else 0
  {
    if outbox != [] {
      RowsCount(outbox[1..], id);
      assert outbox[0] in outbox;
      assert forall r :: r in outbox <==> r == outbox[0] || r in outbox[1..];
      assert outbox[0].id == id ==> !InOutbox(outbox[1..], id);
    }
  }

  // ---------------------------------------------------------------------------
  // The invariant
  // ---------------------------------------------------------------------------

  ghost predicate TxnOk(outbox: seq<Row>, t: Mover) {
    t.Moving? ==>
      && t.done <= |t.ids| && NoDup(t.ids)
      && (forall x :: x in t.ids ==> Waiting(outbox, x))
      && NoDup(t.work.succeeded) && t.work.inserts == t.work.succeeded
      && (forall x :: x in t.work.succeeded ==> x in t.ids[..t.done] && x !in t.work.poisoned)
      && (forall x :: x in t.work.poisoned ==> x in t.ids[..t.done])
  }

  ghost predicate Disjoint(a: Mover, b: Mover) {
    a.Moving? && b.Moving? ==> forall x :: x in a.ids ==> x !in b.ids
  }

  ghost predicate PlacesOk(s: System) {
    && DistinctIds(s.tables.outbox)
    && (forall r :: r in s.tables.outbox ==> r.id in s.arrived)
    && (forall x :: s.tables.log[x] == if x in s.arrived && !InOutbox(s.tables.outbox, x) then 1 else 0)
  }

  ghost predicate Inv(s: System) {
    && PlacesOk(s)
    && (forall i :: 0 <= i < |s.movers| ==> TxnOk(s.tables.outbox, s.movers[i]))
    && (forall i, j :: 0 <= i < j < |s.movers| ==> Disjoint(s.movers[i], s.movers[j]))
  }

  /** Replacing one mover keeps the invariant if the newcomer is sound and claims nobody else's rows. */
  lemma ReplaceMover(s: System, m: nat, t: Mover)
    requires Inv(s) && m < |s.movers| && TxnOk(s.tables.outbox, t)
    requires forall i :: 0 <= i < |s.movers| && i != m ==> Disjoint(s.movers[i], t)
    ensures Inv(s.(movers := s.movers[m := t]))
  {
  }

  lemma ArriveKeepsInv(s: System, row: Row)
    requires Inv(s) && Enabled(s, Arrive(row))
    ensures Inv(Step(s, Arrive(row)))
  {
    var old', new' := s.tables.outbox, s.tables.outbox + [row];
    assert forall r :: r in new' <==> r in old' || r == row;
    assert row in new' && InOutbox(new', row.id);
    forall x ensures x != row.id ==> (InOutbox(new', x) <==> InOutbox(old', x)) {
    }
    forall x | Waiting(old', x) ensures Waiting(new', x) {
      var r :| r in old' && r.id == x && !r.processed;
      assert r in new';
    }
  }

  lemma SelectedIds(outbox: seq<Row>, locked: set<string>, rows: seq<Row>)
    requires DistinctIds(outbox) && Lockable(outbox, locked, rows)
    ensures NoDup(Ids(rows))
    ensures forall x :: x in Ids(rows) ==> Waiting(outbox, x) && x !in locked
  {
    forall i | 0 <= i < |rows| ensures Waiting(outbox, rows[i].id) && rows[i].id !in locked {
      assert rows[i] in rows;
    }
    forall i, j | 0 <= i < j < |rows| ensures rows[i].id != rows[j].id {
      assert rows[i] in rows && rows[j] in rows && rows[i] != rows[j];
    }
  }

  lemma BeginKeepsInv(s: System, m: nat, rows: seq<Row>)
    requires Inv(s) && Enabled(s, Begin(m, rows))
    ensures Inv(Step(s, Begin(m, rows)))
  {
    SelectedIds(s.tables.outbox, Locked(s.movers), rows);
    ReplaceMover(s, m, Moving(Ids(rows), 0, Start(s.movers[m].cache)));
  }

  lemma HandleRowKeepsInv(s: System, m: nat, landed: bool)
    requires Inv(s) && Enabled(s, HandleRow(m, landed))
    ensures Inv(Step(s, HandleRow(m, landed)))
  {
    var t := s.movers[m];
    var id, w := t.ids[t.done], ProcessRow(t.work, t.ids[t.done], landed, MAX_RETRY_CACHE_SIZE);
    assert id !in t.ids[..t.done];
    assert t.ids[..t.done + 1] == t.ids[..t.done] + [id];
    var u := Moving(t.ids, t.done + 1, w);
    forall i | 0 <= i < |s.movers| && i != m ensures Disjoint(s.movers[i], u) {
      assert Disjoint(s.movers[i], t) by {
        if i > m { assert Disjoint(t, s.movers[i]); }
      }
    }
    ReplaceMover(s, m, u);
  }

  lemma IdleKeepsInv(s: System, m: nat, cache: Cache)
    requires Inv(s) && m < |s.movers|
    ensures Inv(s.(movers := s.movers[m := Idle(cache)]))
  {
    ReplaceMover(s, m, Idle(cache));
  }

  lemma MarkedRows(outbox: seq<Row>, poisoned: seq<string>, x: string)
    ensures InOutbox(Marked(outbox, poisoned), x) <==> InOutbox(outbox, x)
    ensures Waiting(Marked(outbox, poisoned), x) <==> Waiting(outbox, x) && x !in poisoned
  {
    var after := Marked(outbox, poisoned);
    if InOutbox(outbox, x) {
      var i :| 0 <= i < |outbox| && outbox[i].id == x;
      assert after[i] in after;
    }
    if Waiting(outbox, x) && x !in poisoned {
      var i :| 0 <= i < |outbox| && outbox[i].id == x && !outbox[i].processed;
      assert after[i] in after;
    }
  }

  /** The rows after a commit: the succeeded are gone, the poisoned are marked, the rest is as before. */
  lemma {:induction false} SettledRows(outbox: seq<Row>, succeeded: seq<string>, poisoned: seq<string>)
    requires DistinctIds(outbox)
    ensures var after := Marked(Deleted(outbox, succeeded), poisoned);
            && DistinctIds(after)
            && (forall x :: InOutbox(after, x) <==> InOutbox(outbox, x) && x !in succeeded)
            && (forall x :: Waiting(after, x) <==> Waiting(outbox, x) && x !in succeeded && x !in poisoned)
  {
    var mid := Deleted(outbox, succeeded);
    DeletedDistinct(outbox, succeeded);
    forall x
      ensures InOutbox(Marked(mid, poisoned), x) <==> InOutbox(outbox, x) && x !in succeeded
      ensures Waiting(Marked(mid, poisoned), x) <==> Waiting(outbox, x) && x !in succeeded && x !in poisoned
    {
      DeletedPlaces(outbox, succeeded, x);
      MarkedRows(mid, poisoned, x);
    }
  }

  lemma DeletedPlaces(outbox: seq<Row>, ids: seq<string>, x: string)
    ensures InOutbox(Deleted(outbox, ids), x) <==> InOutbox(outbox, x) && x !in ids
    ensures Waiting(Deleted(outbox, ids), x) <==> Waiting(outbox, x) && x !in ids
  {
    DeletedRows(outbox, ids);
  }

  lemma CommitKeepsPlaces(s: System, m: nat)
    requires Inv(s) && Enabled(s, Commit(m))
    ensures PlacesOk(s.(tables := Settled(s.tables, s.movers[m].work)))
  {
    var w := s.movers[m].work;
    SettledRows(s.tables.outbox, w.succeeded, w.poisoned);
    var after := Settled(s.tables, w);
    forall r | r in after.outbox ensures r.id in s.arrived {
      assert InOutbox(after.outbox, r.id);
    }
    forall x
      ensures after.log[x] == if x in s.arrived && !InOutbox(after.outbox, x) then 1 else 0
    {
      NoDupMultiset(w.succeeded, x);
      if x in w.succeeded {
        assert Waiting(s.tables.outbox, x);
      }
    }
  }

  lemma {:induction false} NoDupMultiset(s: seq<string>, x: string)
    requires NoDup(s)
    ensures multiset(s)[x] == if x in s then 1 else 0
  {
    if s != [] {
      NoDupMultiset(s[1..], x);
      assert s == [s[0]] + s[1..];
    }
  }

  lemma CommitKeepsInv(s: System, m: nat)
    requires Inv(s) && Enabled(s, Commit(m))
    ensures Inv(Step(s, Commit(m)))
  {
    var t := s.movers[m];
    CommitKeepsPlaces(s, m);
    SettledRows(s.tables.outbox, t.work.succeeded, t.work.poisoned);
    var others := s.movers[m := Idle(t.work.cache)];
    forall i | 0 <= i < |others| ensures TxnOk(Settled(s.tables, t.work).outbox, others[i]) {
      if i != m {
        assert Disjoint(s.movers[i], t) by {
          if i > m { assert Disjoint(t, s.movers[i]); }
        }
      }
    }
  }

  lemma StepKeepsInv(s: System, a: Action)
    requires Inv(s) && Enabled(s, a)
    ensures Inv(Step(s, a))
  {
    match a {
      case Arrive(row) => ArriveKeepsInv(s, row);
      case Begin(m, rows) => BeginKeepsInv(s, m, rows);
      case HandleRow(m, landed) => HandleRowKeepsInv(s, m, landed);
      case Commit(m) => CommitKeepsInv(s, m);
      case Rollback(m) => IdleKeepsInv(s, m, s.movers[m].work.cache);
      case Crash(m) => IdleKeepsInv(s, m, EMPTY);
    }
  }

  lemma {:induction false} ReachableInv(s: System, actions: seq<Action>, t: System)
    requires Inv(s) && Reaches(s, actions, t)
    ensures Inv(t)
    decreases |actions|
  {
    if actions != [] {
      StepKeepsInv(s, actions[0]);
      ReachableInv(Step(s, actions[0]), actions[1..], t);
    }
  }

  // ---------------------------------------------------------------------------
  // Exactly once
  // ---------------------------------------------------------------------------

  /** In every reachable state, with any number of movers, rollbacks, crashes and partition retries, an
      id that was ever committed to the outbox is in exactly one place, once: waiting there, marked
      there as a poison pill, or moved to the audit log. An id that never arrived is in none. */
  lemma ExactlyOnePlace(s: System, actions: seq<Action>, t: System, id: string)
    requires Initial(s) && Reaches(s, actions, t)
    ensures Rows(t.tables.outbox, id, false) + Rows(t.tables.outbox, id, true) + t.tables.log[id]
         == if id in t.arrived then 1 else 0
  {
    ReachableInv(s, actions, t);
    RowsCount(t.tables.outbox, id);
    if InOutbox(t.tables.outbox, id) {
      var r :| r in t.tables.outbox && r.id == id;
    }
  }

  /** No step takes an entry out of the audit log or a poison pill out of the outbox. */
  lemma SettledEntriesStay(s: System, a: Action, id: string)
    requires Inv(s) && Enabled(s, a)
    ensures s.tables.log[id] <= Step(s, a).tables.log[id]
    ensures Rows(s.tables.outbox, id, true) <= Rows(Step(s, a).tables.outbox, id, true)
  {
    var t := Step(s, a);
    StepKeepsInv(s, a);
    RowsCount(s.tables.outbox, id);
    RowsCount(t.tables.outbox, id);
    if Rows(s.tables.outbox, id, true) == 1 {
      if a.Commit? {
        var w := s.movers[a.mover].work;
        SettledRows(s.tables.outbox, w.succeeded, w.poisoned);
      } else if a.Arrive? {
        var r :| r in s.tables.outbox && r.id == id;
        assert r in t.tables.outbox;
        assert Waiting(t.tables.outbox, id) ==> Waiting(s.tables.outbox, id);
      }
    }
  }

  /** Two movers never hold the same row. */
  lemma MoversHoldDifferentRows(s: System, actions: seq<Action>, t: System, i: nat, j: nat, id: string)
    requires Initial(s) && Reaches(s, actions, t)
    requires i < j < |t.movers| && t.movers[i].Moving? && t.movers[j].Moving?
    ensures !(id in t.movers[i].ids && id in t.movers[j].ids)
  {
    ReachableInv(s, actions, t);
    assert Disjoint(t.movers[i], t.movers[j]);
  }
}
