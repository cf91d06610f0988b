/** The audit outbox service: its methods, each as a function of the tables, the cache and the metrics. */
module AuditOutbox {
  import opened Common
  import opened LruRetryCache
  import opened OutboxProtocol

  datatype Metrics = Metrics(inserted: nat, moved: nat, dropped: nat, moverErrors: nat, poisonPills: nat)

  const NO_METRICS := Metrics(0, 0, 0, 0, 0)

  /** How the transaction of a batch ends. It may break after some of its rows, before the `moved`
      metric is bumped; or its commit may break, with or without having taken effect. Either can be an
      exception, which the method swallows, or a cancellation, which it does not. */
  datatype Fate =
    | Commits
    | Breaks(rows: nat, cancelled: bool)
    | CommitBreaks(applied: bool, cancelled: bool)

  datatype Result = Returned(moved: nat) | Cancelled

  predicate Applies(fate: Fate) {
    fate.Commits? || (fate.CommitBreaks? && fate.applied)
  }

  predicate IsCancelled(fate: Fate) {
    !fate.Commits? && fate.cancelled
  }

  /** The part of a batch that is worked through. */
  function Reached(ids: seq<string>, fate: Fate): seq<string> {
    if fate.Breaks? then ids[..Min(fate.rows, |ids|)] else ids
  }

  datatype World = World(tables: Tables, cache: Cache, metrics: Metrics)

  function BatchWork(c: Cache, ids: seq<string>, attempts: Attempts, fate: Fate, max: nat): Work {
    ProcessRows(Start(c), Reached(ids, fate), attempts, max)
  }

  function BumpMetrics(m: Metrics, w: Work, fate: Fate): Metrics {
    m.(moved := m.moved + if fate.Breaks? then 0 else |w.succeeded|,
       moverErrors := m.moverErrors + if fate.Commits? || fate.cancelled then 0 else 1,
       poisonPills := m.poisonPills + |w.poisoned|)
  }

  /** A batch: the tables change only if the transaction took effect, the cache and metrics regardless. */
  function AfterBatch(w: World, ids: seq<string>, attempts: Attempts, fate: Fate, max: nat): World {
    var work := BatchWork(w.cache, ids, attempts, fate, max);
    World(if Applies(fate) then Settled(w.tables, work) else w.tables,
          work.cache, BumpMetrics(w.metrics, work, fate))
  }

  // ---------------------------------------------------------------------------
  // The service
  // ---------------------------------------------------------------------------

  /** The committed tables of the database server. */
  class Database {
    var tables: Tables

    constructor ()
      ensures tables == Tables([], multiset{})
    {
      tables := Tables([], multiset{});
    }
  }

  /** How an insert ends: known to be stored, or with a timeout, an exception or a cancellation, stored or
      not. */
  datatype Insertion = Stored | TimedOut(stored: bool) | Failed(stored: bool) | CutShort(stored: bool)

  /** What the caller of an insert gets: an id or nothing, or a cancellation. */
  datatype Receipt = Entry(id: Option<string>) | InsertCancelled

  predicate EndsStored(i: Insertion) {
    i.Stored? || i.stored
  }

  class AuditOutboxService {
    const retryCache: LRURetryCache
    var metrics: Metrics
    var running: bool
    /** The mover task exists and has not ended. */
    var live: bool

    ghost predicate Ok()
      reads this, retryCache
    {
      retryCache.Ok() && retryCache.maxSize == MAX_RETRY_CACHE_SIZE
    }

    function Model(db: Database): World
      reads this, retryCache, db
    {
      World(db.tables, retryCache.Model(), metrics)
    }

    constructor ()
      ensures Ok() && fresh(retryCache) && retryCache.Model() == EMPTY && metrics == NO_METRICS
      ensures !running && !live
    {
      retryCache := new LRURetryCache(MAX_RETRY_CACHE_SIZE);
      metrics := NO_METRICS;
      running, live := false, false;
    }

    /** Starts the mover, unless it is live. */
    method StartMover()
      modifies `running, `live
      ensures live && running == (old(running) || !old(live))
    {
      if !live {
        running, live := true, true;
      }
    }

    /** Stores an entry under a fresh id. A timeout or an exception reports the entry dropped, stored or not;
        a cancellation raises and reports nothing. */
    method Insert(db: Database, row: Row, outcome: Insertion) returns (receipt: Receipt)
      requires !row.processed
      modifies this`metrics, db
      ensures receipt == if outcome.CutShort? then InsertCancelled
                         else Entry(if outcome.Stored? then Some(row.id) else None)
      ensures outcome.Stored? || outcome.stored ==> db.tables.outbox == old(db.tables.outbox) + [row]
      ensures !outcome.Stored? && !outcome.stored ==> db.tables.outbox == old(db.tables.outbox)
      ensures db.tables.log == old(db.tables.log)
      ensures receipt.Entry? && receipt.id.Some? ==>
                receipt.id.value == row.id && row in Pending(db.tables.outbox)
      ensures metrics == if outcome.Stored? then old(metrics).(inserted := old(metrics).inserted + 1)
                         else if outcome.CutShort? then old(metrics)
                         else old(metrics).(dropped := old(metrics).dropped + 1)
    {
      if EndsStored(outcome) {
        db.tables := db.tables.(outbox := db.tables.outbox + [row]);
      } else {
        assert db.tables.outbox + [] == db.tables.outbox;
      }
      match outcome {
        case Stored =>
          metrics := metrics.(inserted := metrics.inserted + 1);
          receipt := Entry(Some(row.id));
        case TimedOut(_) | Failed(_) =>
          metrics := metrics.(dropped := metrics.dropped + 1);
          receipt := Entry(None);
        case CutShort(_) =>
          receipt := InsertCancelled;
      }
    }

    /** One row's insert under its savepoint, repeated once after creating a missing partition. */
    method InsertWithSavepoint(id: string, attempts: Attempts, pending: seq<string>)
        returns (landed: bool, inserts: seq<string>)
      ensures landed <==> Landed(attempts, id)
      ensures landed <==> id in attempts && (attempts[id] == Inserted || attempts[id] == NoPartition(true, true))
      ensures inserts == if landed then pending + [id] else pending
    {
      var savepoint := pending;
      var attempt := if id in attempts then attempts[id] else Refused;
      inserts := pending + [id];
      if attempt.Inserted? {
        return true, inserts;
      }
      inserts := savepoint;
      if attempt.NoPartition? && attempt.created {
        inserts := inserts + [id];
        if attempt.reinserted {
          return true, inserts;
        }
        inserts := savepoint;
      }
      return false, inserts;
    }

    /** The row loop of a batch, over the first `stop` rows. */
    method WorkThrough(rows: seq<Row>, attempts: Attempts, stop: nat)
        returns (movedCount: nat, successIds: seq<string>, poisonIds: seq<string>, inserts: seq<string>)
      requires Ok() && stop <= |rows|
      modifies this`metrics, retryCache
      ensures Ok() && movedCount == |successIds|
      ensures Work(retryCache.Model(), successIds, poisonIds, inserts) ==
              ProcessRows(Start(old(retryCache.Model())), Ids(rows)[..stop], attempts, MAX_RETRY_CACHE_SIZE)
      ensures metrics == old(metrics).(poisonPills := old(metrics).poisonPills + |poisonIds|)
    {
      ghost var start, ids := Start(retryCache.Model()), Ids(rows);
      movedCount, successIds, poisonIds, inserts := 0, [], [], [];
      var i := 0;
      while i < stop
        invariant 0 <= i <= stop && Ok() && movedCount == |successIds|
        invariant Work(retryCache.Model(), successIds, poisonIds, inserts) ==
                  ProcessRows(start, ids[..i], attempts, MAX_RETRY_CACHE_SIZE)
        invariant metrics == old(metrics).(poisonPills := old(metrics).poisonPills + |poisonIds|)
      {
        var id := rows[i].id;
        ProcessNext(start, ids, i, attempts, MAX_RETRY_CACHE_SIZE);
        i := i + 1;
        var retryCount := retryCache.Get(id);
        if retryCount >= MAX_RETRY_COUNT {
          poisonIds := poisonIds + [id];
          metrics := metrics.(poisonPills := metrics.poisonPills + 1);
          retryCache.Clear(id);
          continue;
        }
        var landed;
        landed, inserts := InsertWithSavepoint(id, attempts, inserts);
        if landed {
          successIds := successIds + [id];
          retryCache.Clear(id);
          movedCount := movedCount + 1;
          continue;
        }
        var _ := retryCache.Increment(id);
      }
    }

    /** Deletes the succeeded rows, marks the poisoned ones and commits, as far as `fate` lets it. */
    method FinishBatch(db: Database, ghost cache: Cache, movedCount: nat, successIds: seq<string>,
                       poisonIds: seq<string>, inserts: seq<string>, fate: Fate)
      requires movedCount == |successIds|
      modifies this`metrics, db
      ensures db.tables == if Applies(fate) then Settled(old(db.tables), Work(cache, successIds, poisonIds, inserts))
                           else old(db.tables)
      ensures metrics == old(metrics).(
                moved := old(metrics).moved + if fate.Breaks? then 0 else |successIds|,
                moverErrors := old(metrics).moverErrors + if fate.Commits? || fate.cancelled then 0 else 1)
    {
      if !fate.Breaks? {
        var outbox := db.tables.outbox;
        if successIds != [] {
          outbox := Deleted(outbox, successIds);
        } else {
          NoneDeleted(outbox);
        }
        if poisonIds != [] {
          outbox := Marked(outbox, poisonIds);
        } else {
          NoneMarked(outbox);
        }
        metrics := metrics.(moved := metrics.moved + movedCount);
        if Applies(fate) {
          db.tables := Tables(outbox, db.tables.log + multiset(inserts));
        }
      }
      if !fate.Commits? && !fate.cancelled {
        metrics := metrics.(moverErrors := metrics.moverErrors + 1);
      }
    }

    /** Moves one batch, whatever `rows` the batch query returned. */
    method MoveBatch(db: Database, rows: seq<Row>, attempts: Attempts, fate: Fate) returns (result: Result)
      requires Ok()
      modifies this`metrics, retryCache, db
      ensures Ok()
      ensures Model(db) == AfterBatch(old(Model(db)), Ids(rows), attempts, fate, MAX_RETRY_CACHE_SIZE)
      ensures result.Cancelled? <==> !fate.Commits? && fate.cancelled
      ensures result.Returned? ==> result.moved == |BatchWork(old(retryCache.Model()), Ids(rows), attempts, fate,
                                                              MAX_RETRY_CACHE_SIZE).succeeded|
    {
      ghost var before, ids := Model(db), Ids(rows);
      var stop := if fate.Breaks? then Min(fate.rows, |rows|) else |rows|;
      StopIsReached(ids, fate);
      var movedCount, successIds, poisonIds, inserts := WorkThrough(rows, attempts, stop);
      ghost var work := Work(retryCache.Model(), successIds, poisonIds, inserts);
      FinishBatch(db, retryCache.Model(), movedCount, successIds, poisonIds, inserts, fate);
      BatchInParts(before, ids, attempts, fate, work, db.tables, metrics);
      result := if IsCancelled(fate) then Cancelled else Returned(movedCount);
    }
  }

  lemma StopIsReached(ids: seq<string>, fate: Fate)
    ensures ids[..if fate.Breaks? then Min(fate.rows, |ids|) else |ids|] == Reached(ids, fate)
  {
  }

  lemma ProcessNext(w: Work, ids: seq<string>, i: nat, attempts: Attempts, max: nat)
    requires i < |ids|
    ensures ProcessRows(w, ids[..i + 1], attempts, max) ==
            ProcessRow(ProcessRows(w, ids[..i], attempts, max), ids[i], Landed(attempts, ids[i]), max)
  {
    assert ids[..i + 1][..i] == ids[..i];
  }

  /** The state after a batch, from its volatile work, the tables and the metrics. */
  lemma BatchInParts(w: World, ids: seq<string>, attempts: Attempts, fate: Fate, work: Work,
                     tables: Tables, metrics: Metrics)
    requires work == BatchWork(w.cache, ids, attempts, fate, MAX_RETRY_CACHE_SIZE)
    requires tables == if Applies(fate) then Settled(w.tables, work) else w.tables
    requires metrics == BumpMetrics(w.metrics, work, fate)
    ensures AfterBatch(w, ids, attempts, fate, MAX_RETRY_CACHE_SIZE) == World(tables, work.cache, metrics)
  {
  }

  lemma NoneDeleted(outbox: seq<Row>)
    ensures Deleted(outbox, []) == outbox
  {
  }

  lemma NoneMarked(outbox: seq<Row>)
    ensures Marked(outbox, []) == outbox
  {
  }
}
