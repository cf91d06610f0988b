/** What a batch reports, the drain loop of the mover, and stopping it, with batches of every fate and rows
    that keep arriving. */
module OutboxDrain {
  import opened Common
  import opened LruRetryCache
  import opened OutboxProtocol
  import opened OutboxBatch
  import opened AuditOutbox
  import opened OutboxRuns
  import Traces

  function AfterOne(w: World, attempts: Attempts, fate: Fate): World {
    Step(w, Batch(attempts, fate), MAX_RETRY_CACHE_SIZE)
  }

  ghost function ReportedBy(w: World, attempts: Attempts, fate: Fate): nat {
    |BatchWork(w.cache, Head(w.tables), attempts, fate, MAX_RETRY_CACHE_SIZE).succeeded|
  }

  /** Some row that the batch gets to is below its retry limit and lands. */
  ghost predicate MovesSome(w: World, attempts: Attempts, fate: Fate) {
    exists x :: x in Reached(Head(w.tables), fate) && Count(w.cache, x) < MAX_RETRY_COUNT && Landed(attempts, x)
  }

  lemma EmptyIffNothingIn(s: seq<string>)
    ensures s == [] <==> forall x :: x !in s
  {
    if s != [] {
      assert s[0] in s;
    }
  }

  lemma ReportsIff(w: World, attempts: Attempts, fate: Fate)
    requires Inv(w)
    ensures ReportedBy(w, attempts, fate) > 0 <==> MovesSome(w, attempts, fate)
  {
    BatchEffect(w, attempts, fate);
    EmptyIffNothingIn(BatchWork(w.cache, Head(w.tables), attempts, fate, MAX_RETRY_CACHE_SIZE).succeeded);
  }

  // ---------------------------------------------------------------------------
  // The reported count
  // ---------------------------------------------------------------------------

  /** The count a batch reports is the number of rows it adds to the log exactly when its transaction takes
      effect, or no row it gets to is below its retry limit and lands. */
  lemma ReportedCountIsTrueIffApplied(w: World, attempts: Attempts, fate: Fate)
    requires Inv(w)
    ensures |AfterOne(w, attempts, fate).tables.log| == |w.tables.log| + ReportedBy(w, attempts, fate)
       <==> Applies(fate)
            || forall x :: x in Reached(Head(w.tables), fate) ==>
                 Count(w.cache, x) >= MAX_RETRY_COUNT || !Landed(attempts, x)
  {
    var ids := Reached(Head(w.tables), fate);
    HeadRoomy(w, ids);
    ListsWithinBatch(w.cache, ids, attempts, MAX_RETRY_CACHE_SIZE);
    ReportsIff(w, attempts, fate);
  }

  /** A concrete batch that reports a row as moved although nothing was moved. */
  lemma FailedCommitStillReports()
    ensures var w := World(Tables([Row("a", 0, false)], multiset{}), EMPTY, NO_METRICS);
            var e := Batch(map["a" := Inserted], CommitBreaks(false, false));
            && Inv(w)
            && BatchWork(w.cache, Head(w.tables), e.attempts, e.fate, MAX_RETRY_CACHE_SIZE).succeeded == ["a"]
            && Step(w, e, MAX_RETRY_CACHE_SIZE).tables == w.tables
            && Step(w, e, MAX_RETRY_CACHE_SIZE).metrics.moved == 1
  {
    var w := World(Tables([Row("a", 0, false)], multiset{}), EMPTY, NO_METRICS);
    assert PendingIds(w.tables) == ["a"];
    assert Head(w.tables) == ["a"];
    assert ["a"][..0] == [];
    assert ProcessRows(Start(EMPTY), ["a"][..0], map["a" := Inserted], MAX_RETRY_CACHE_SIZE) == Start(EMPTY);
  }

  // ---------------------------------------------------------------------------
  // A single batch as a flush
  // ---------------------------------------------------------------------------

  /** Every pending row that the flush finds is poisoned or lands. */
  ghost predicate AllLeave(w: World, attempts: Attempts) {
    forall x :: x in PendingIds(w.tables) ==> Count(w.cache, x) >= MAX_RETRY_COUNT || Landed(attempts, x)
  }

  lemma AppliedIsCommitted(w: World, attempts: Attempts, fate: Fate)
    ensures AfterOne(w, attempts, fate).tables
         == if Applies(fate) then CommitBatch(w, attempts).tables else w.tables
  {
  }

  lemma CommittedFlush(w: World, attempts: Attempts)
    requires Inv(w)
    ensures PendingIds(CommitBatch(w, attempts).tables) == []
       <==> |PendingIds(w.tables)| <= BATCH_SIZE && AllLeave(w, attempts)
  {
    var ids, after := PendingIds(w.tables), PendingIds(CommitBatch(w, attempts).tables);
    EmptyIffNothingIn(after);
    if |ids| <= BATCH_SIZE {
      forall x ensures x in after <==> x in ids && Count(w.cache, x) < MAX_RETRY_COUNT && !Landed(attempts, x) {
        CommitVerdict(w, attempts, x);
      }
    } else {
      PendingIdsNoDup(w.tables);
      assert ids[BATCH_SIZE] !in Head(w.tables);
      CommitVerdict(w, attempts, ids[BATCH_SIZE]);
    }
  }

  /** A single batch, like the flush of `stop_mover`, leaves nothing unprocessed exactly when nothing was, or
      its transaction takes effect, at most BATCH_SIZE rows were, and each of them lands or is at its limit. */
  lemma FlushEmptiesIff(w: World, attempts: Attempts, fate: Fate)
    requires Inv(w)
    ensures PendingIds(AfterOne(w, attempts, fate).tables) == []
       <==> PendingIds(w.tables) == []
            || (Applies(fate) && |PendingIds(w.tables)| <= BATCH_SIZE && AllLeave(w, attempts))
  {
    AppliedIsCommitted(w, attempts, fate);
    CommittedFlush(w, attempts);
    if PendingIds(w.tables) == [] {
      assert AllLeave(w, attempts);
    }
  }

  function Name(n: nat): string {
    seq(n, _ => 'x')
  }

  /** `n` unprocessed rows in order of creation. */
  function Backlog(n: nat): seq<Row> {
    seq(n, i requires 0 <= i < n => Row(Name(i), i, false))
  }

  lemma {:induction false} AllPending(outbox: seq<Row>)
    requires forall i :: 0 <= i < |outbox| ==> !outbox[i].processed
    ensures Pending(outbox) == outbox
  {
    if outbox != [] {
      AllPending(outbox[1..]);
    }
  }

  lemma BacklogInv(n: nat) returns (w: World)
    ensures w == World(Tables(Backlog(n), multiset{}), EMPTY, NO_METRICS)
    ensures Inv(w) && |PendingIds(w.tables)| == n
  {
    w := World(Tables(Backlog(n), multiset{}), EMPTY, NO_METRICS);
    forall i, j | 0 <= i < j < n ensures Backlog(n)[i].id != Backlog(n)[j].id {
      assert |Name(i)| == i && |Name(j)| == j;
    }
    AllPending(Backlog(n));
  }

  function AllLand(ids: seq<string>): Attempts {
    map x | x in ids :: Inserted
  }

  /** A flush that commits and leaves a row behind: one row more than a batch, all of which would land. */
  lemma FlushLeavesRows()
    ensures var w := World(Tables(Backlog(BATCH_SIZE + 1), multiset{}), EMPTY, NO_METRICS);
            && Inv(w) && AllLeave(w, AllLand(PendingIds(w.tables)))
            && PendingIds(AfterOne(w, AllLand(PendingIds(w.tables)), Commits).tables) != []
  {
    var w := BacklogInv(BATCH_SIZE + 1);
    FlushEmptiesIff(w, AllLand(PendingIds(w.tables)), Commits);
  }

  /** Another: a single row that is refused. */
  lemma FlushLeavesRefusedRow()
    ensures var w := World(Tables([Row("a", 0, false)], multiset{}), EMPTY, NO_METRICS);
            Inv(w) && PendingIds(AfterOne(w, map["a" := Refused], Commits).tables) != []
  {
    var w := World(Tables([Row("a", 0, false)], multiset{}), EMPTY, NO_METRICS);
    assert PendingIds(w.tables) == ["a"];
    assert "a" in PendingIds(w.tables);
    FlushEmptiesIff(w, map["a" := Refused], Commits);
  }

  // ---------------------------------------------------------------------------
  // Rows that arrive between batches
  // ---------------------------------------------------------------------------

  /** Rows that can be added, one after the other: unprocessed, with new ids and later creation times. */
  ghost predicate CanArrive(t: Tables, rows: seq<Row>) {
    && DistinctIds(rows) && ArrivedInOrder(rows)
    && (forall r :: r in rows ==> !r.processed)
    && (forall q, r :: q in t.outbox && r in rows ==> q.id != r.id && q.createdAt < r.createdAt)
  }

  function Arrived(t: Tables, rows: seq<Row>): Tables {
    t.(outbox := t.outbox + rows)
  }

  lemma ArrivedJoin(t: Tables, a: seq<Row>, b: seq<Row>)
    ensures Arrived(t, a + b) == Arrived(Arrived(t, a), b)
  {
    assert t.outbox + (a + b) == (t.outbox + a) + b;
  }

  lemma PartsInOrder(a: seq<Row>, b: seq<Row>)
    requires DistinctIds(a + b) && ArrivedInOrder(a + b)
    ensures DistinctIds(a) && ArrivedInOrder(a) && DistinctIds(b) && ArrivedInOrder(b)
    ensures forall q, r :: q in a && r in b ==> q.id != r.id && q.createdAt < r.createdAt
  {
    var all := a + b;
    assert forall i :: 0 <= i < |a| ==> a[i] == all[i];
    assert forall i :: 0 <= i < |b| ==> b[i] == all[|a| + i];
  }

  lemma FirstArrive(t: Tables, a: seq<Row>, b: seq<Row>)
    requires CanArrive(t, a + b)
    ensures CanArrive(t, a)
  {
    PartsInOrder(a, b);
    assert forall r :: r in a ==> r in a + b;
  }

  lemma RestArrive(t: Tables, a: seq<Row>, b: seq<Row>)
    requires CanArrive(t, a + b)
    ensures CanArrive(Arrived(t, a), b)
  {
    PartsInOrder(a, b);
    assert forall r :: r in b ==> r in a + b;
    forall q, r | q in Arrived(t, a).outbox && r in b ensures q.id != r.id && q.createdAt < r.createdAt {
      assert q in t.outbox || q in a;
    }
  }

  lemma ArriveInParts(t: Tables, a: seq<Row>, b: seq<Row>)
    requires CanArrive(t, a + b)
    ensures CanArrive(t, a) && CanArrive(Arrived(t, a), b) && Arrived(t, a + b) == Arrived(Arrived(t, a), b)
  {
    ArrivedJoin(t, a, b);
    FirstArrive(t, a, b);
    RestArrive(t, a, b);
  }

  /** Arrivals extend what is pending, and so the next batch, and keep the invariant. */
  lemma {:induction false} ArrivalsExtend(w: World, rows: seq<Row>)
    requires Inv(w) && CanArrive(w.tables, rows)
    ensures var v := w.(tables := Arrived(w.tables, rows));
            && Inv(v) && |PendingIds(v.tables)| == |PendingIds(w.tables)| + |rows|
            && PendingIds(w.tables) <= PendingIds(v.tables)
  {
    if rows == [] {
      assert w.tables.outbox + rows == w.tables.outbox;
    } else {
      var init, last := rows[..|rows| - 1], rows[|rows| - 1];
      assert init + [last] == rows;
      ArriveInParts(w.tables, init, [last]);
      ArrivalsExtend(w, init);
      OneArrives(w.(tables := Arrived(w.tables, init)), last);
    }
  }

  lemma OneArrives(w: World, row: Row)
    requires Inv(w) && CanArrive(w.tables, [row])
    ensures var v := w.(tables := Arrived(w.tables, [row]));
            && Inv(v) && |PendingIds(v.tables)| == |PendingIds(w.tables)| + 1
            && PendingIds(w.tables) <= PendingIds(v.tables)
  {
    assert row in [row];
    ArrivalKeepsInv(w, row);
    PendingAppend(w.tables.outbox, row);
    IdsAppend(Pending(w.tables.outbox), [row]);
  }

  lemma DeletedAmong(outbox: seq<Row>, succeeded: seq<string>, poisoned: seq<string>, i: nat)
    requires i < |Marked(Deleted(outbox, succeeded), poisoned)|
    ensures exists p :: p in outbox && p.id == Marked(Deleted(outbox, succeeded), poisoned)[i].id
                        && p.createdAt == Marked(Deleted(outbox, succeeded), poisoned)[i].createdAt
  {
    DeletedRows(outbox, succeeded);
    assert Deleted(outbox, succeeded)[i] in Deleted(outbox, succeeded);
  }

  /** What could arrive before a batch can arrive after it. */
  lemma BatchLetsArrive(w: World, attempts: Attempts, fate: Fate, rows: seq<Row>)
    requires CanArrive(w.tables, rows)
    ensures CanArrive(AfterOne(w, attempts, fate).tables, rows)
  {
    var work := BatchWork(w.cache, Head(w.tables), attempts, fate, MAX_RETRY_CACHE_SIZE);
    var after := Settled(w.tables, work).outbox;
    forall q, r | q in after && r in rows ensures q.id != r.id && q.createdAt < r.createdAt {
      var i :| 0 <= i < |after| && after[i] == q;
      DeletedAmong(w.tables.outbox, work.succeeded, work.poisoned, i);
    }
  }

  // ---------------------------------------------------------------------------
  // The drain loop
  // ---------------------------------------------------------------------------

  /** The rows that arrive before one batch, what the database answers to it, how its transaction ends, and
      whether the service is stopped meanwhile. */
  datatype Turn = Turn(arrivals: seq<Row>, attempts: Attempts, fate: Fate, stopped: bool)

  function AtBatch(w: World, t: Turn): World {
    w.(tables := Arrived(w.tables, t.arrivals))
  }

  function AfterTurn(w: World, t: Turn): World {
    AfterOne(AtBatch(w, t), t.attempts, t.fate)
  }

  /** How many of the first `n` transactions do not take effect. */
  function Ineffective(turns: seq<Turn>, n: nat): nat
    requires n <= |turns|
  {
    if n == 0 then 0 else Ineffective(turns, n - 1) + if Applies(turns[n - 1].fate) then 0 else 1
  }

  /** All rows that arrive. */
  function Arrivals(turns: seq<Turn>): seq<Row> {
    if turns == [] then [] else Arrivals(turns[..|turns| - 1]) + turns[|turns| - 1].arrivals
  }

  lemma {:induction false} ArrivalsJoin(a: seq<Turn>, b: seq<Turn>)
    ensures Arrivals(a + b) == Arrivals(a) + Arrivals(b)
  {
    if b == [] {
      assert a + b == a;
    } else {
      assert (a + b)[..|a + b| - 1] == a + b[..|b| - 1];
      ArrivalsJoin(a, b[..|b| - 1]);
    }
  }

  lemma ArrivalsStep(turns: seq<Turn>, n: nat)
    requires n < |turns|
    ensures Arrivals(turns[..n + 1]) == Arrivals(turns[..n]) + turns[n].arrivals
    ensures Arrivals(turns[n..]) == turns[n].arrivals + Arrivals(turns[n + 1..])
  {
    var t := [turns[n]];
    assert turns[..n + 1][..n] == turns[..n];
    assert turns[n..] == t + turns[n + 1..];
    ArrivalsJoin(t, turns[n + 1..]);
    assert t[..0] == [];
    assert Arrivals(t[..0]) == [];
    assert Arrivals(t) == t[0].arrivals;
  }

  /** `ws` are the states before, between and after the first `n` batches. */
  ghost predicate Trace(ws: seq<World>, turns: seq<Turn>, n: nat) {
    Traces.Runs(ws, turns, AfterTurn, n)
  }

  lemma TraceTurn(ws: seq<World>, turns: seq<Turn>, n: nat, i: nat)
    requires Trace(ws, turns, n) && i < n
    ensures ws[i + 1] == AfterTurn(ws[i], turns[i])
  {
    assert Traces.Linked(ws, turns, AfterTurn, i);
  }

  /** The loop goes on after a batch that is not cancelled and reports rows, unless the service is stopped. */
  ghost predicate GoesOn(w: World, t: Turn) {
    !IsCancelled(t.fate) && ReportedBy(AtBatch(w, t), t.attempts, t.fate) > 0 && !t.stopped
  }

  ghost predicate GoesOnAfter(ws: seq<World>, turns: seq<Turn>, i: nat) {
    i < |turns| && i < |ws| && GoesOn(ws[i], turns[i])
  }

  /** The loop does not end within the first `n` batches. */
  ghost predicate RunsThrough(ws: seq<World>, turns: seq<Turn>, n: nat) {
    forall i: nat :: i < n ==> GoesOnAfter(ws, turns, i)
  }

  /** The loop ends with the `n`-th batch. */
  ghost predicate EndsAfter(ws: seq<World>, turns: seq<Turn>, n: nat) {
    n >= 1 && RunsThrough(ws, turns, n - 1) && !GoesOnAfter(ws, turns, n - 1)
  }

  /** A batch whose transaction takes effect and that reports rows leaves fewer pending; any other leaves
      no more than there were. */
  lemma OneBatchMeasure(w: World, attempts: Attempts, fate: Fate)
    requires Inv(w)
    ensures Inv(AfterOne(w, attempts, fate))
    ensures |PendingIds(AfterOne(w, attempts, fate).tables)| <= |PendingIds(w.tables)|
    ensures Applies(fate) && ReportedBy(w, attempts, fate) > 0 ==>
              |PendingIds(AfterOne(w, attempts, fate).tables)| < |PendingIds(w.tables)|
  {
    BatchKeepsInv(w, attempts, fate);
    BatchEffect(w, attempts, fate);
    var work := BatchWork(w.cache, Head(w.tables), attempts, fate, MAX_RETRY_CACHE_SIZE);
    if Applies(fate) && work.succeeded != [] {
      var x := work.succeeded[0];
      assert x in work.succeeded && x in Head(w.tables) && x in PendingIds(w.tables);
      FilterShrinks(PendingIds(w.tables), Elems(work.succeeded) + Elems(work.poisoned), x);
    }
  }

  lemma FilterShrinks(s: seq<string>, gone: set<string>, x: string)
    requires x in s && x in gone
    ensures |Filter(s, gone)| < |s|
  {
  }

  /** Every turn of a trace finds the invariant, and what is still to come can arrive. */
  ghost predicate Sound(w: World, turns: seq<Turn>, n: nat) {
    n <= |turns| && Inv(w) && CanArrive(w.tables, Arrivals(turns[n..]))
  }

  lemma SoundNext(w: World, turns: seq<Turn>, n: nat)
    requires n < |turns| && Sound(w, turns, n)
    ensures CanArrive(w.tables, turns[n].arrivals) && Inv(AtBatch(w, turns[n]))
    ensures Sound(AfterTurn(w, turns[n]), turns, n + 1)
  {
    var t, rest := turns[n], Arrivals(turns[n + 1..]);
    ArrivalsStep(turns, n);
    ArriveInParts(w.tables, t.arrivals, rest);
    ArrivalsExtend(w, t.arrivals);
    BatchKeepsInv(AtBatch(w, t), t.attempts, t.fate);
    BatchLetsArrive(AtBatch(w, t), t.attempts, t.fate, rest);
  }

  lemma {:induction false} TraceIsSound(ws: seq<World>, turns: seq<Turn>, n: nat)
    requires n < |ws| && Trace(ws, turns, |ws| - 1) && Sound(ws[0], turns, 0)
    ensures Sound(ws[n], turns, n)
  {
    if n > 0 {
      TraceIsSound(ws, turns, n - 1);
      TraceTurn(ws, turns, |ws| - 1, n - 1);
      SoundNext(ws[n - 1], turns, n - 1);
    }
  }

  /** The batches that run through are at most the rows that leave and the transactions that fail. */
  lemma {:induction false} DrainMeasure(ws: seq<World>, turns: seq<Turn>, n: nat)
    requires Trace(ws, turns, |turns|) && n <= |turns| && Sound(ws[0], turns, 0) && RunsThrough(ws, turns, n)
    ensures |PendingIds(ws[n].tables)| + n
         <= |PendingIds(ws[0].tables)| + |Arrivals(turns[..n])| + Ineffective(turns, n)
  {
    if n > 0 {
      DrainMeasure(ws, turns, n - 1);
      TraceIsSound(ws, turns, n - 1);
      TraceTurn(ws, turns, |turns|, n - 1);
      assert GoesOnAfter(ws, turns, n - 1);
      TurnMeasure(ws[n - 1], turns, n - 1);
      ArrivalsStep(turns, n - 1);
    }
  }

  lemma TurnMeasure(w: World, turns: seq<Turn>, i: nat)
    requires i < |turns| && Sound(w, turns, i) && GoesOn(w, turns[i])
    ensures |PendingIds(AfterTurn(w, turns[i]).tables)| + (if Applies(turns[i].fate) then 1 else 0)
         <= |PendingIds(w.tables)| + |turns[i].arrivals|
  {
    SoundNext(w, turns, i);
    ArrivalsExtend(w, turns[i].arrivals);
    OneBatchMeasure(AtBatch(w, turns[i]), turns[i].attempts, turns[i].fate);
  }

  lemma DrainEnds(ws: seq<World>, turns: seq<Turn>)
    requires Trace(ws, turns, |turns|) && Sound(ws[0], turns, 0) && RunsThrough(ws, turns, |turns|)
    ensures |turns| <= |PendingIds(ws[0].tables)| + |Arrivals(turns)| + Ineffective(turns, |turns|)
  {
    DrainMeasure(ws, turns, |turns|);
    assert turns[..|turns|] == turns;
  }

  lemma TraceExtends(ws: seq<World>, turns: seq<Turn>, n: nat, w: World)
    requires n < |turns| && Trace(ws, turns, n) && w == AfterTurn(ws[n], turns[n])
    ensures Trace(ws + [w], turns, n + 1)
  {
    Traces.RunsOn(ws, turns, AfterTurn, n, w);
  }

  lemma RunsExtend(ws: seq<World>, turns: seq<Turn>, n: nat, w: World)
    requires n < |turns| && |ws| == n + 1 && RunsThrough(ws, turns, n)
    ensures GoesOn(ws[n], turns[n]) ==> RunsThrough(ws + [w], turns, n + 1)
    ensures !GoesOn(ws[n], turns[n]) ==> EndsAfter(ws + [w], turns, n + 1)
  {
    var us := ws + [w];
    forall i: nat | i < n ensures GoesOnAfter(us, turns, i) {
      assert GoesOnAfter(ws, turns, i);
      assert us[i] == ws[i];
    }
    assert us[n] == ws[n];
  }

  function OldestBatch(outbox: seq<Row>): seq<Row> {
    Pending(outbox)[..Min(BATCH_SIZE, |Pending(outbox)|)]
  }

  lemma IdsPrefix(rows: seq<Row>, n: nat)
    requires n <= |rows|
    ensures Ids(rows[..n]) == Ids(rows)[..n]
  {
  }

  /** One call of the mover's batch that finds the oldest rows unlocked. */
  method MoveOldest(service: AuditOutboxService, db: Database, attempts: Attempts, fate: Fate)
      returns (result: Result)
    requires service.Ok() && Inv(service.Model(db))
    modifies service`metrics, service.retryCache, db
    ensures service.Ok() && Inv(service.Model(db))
    ensures service.Model(db) == AfterOne(old(service.Model(db)), attempts, fate)
    ensures result == if IsCancelled(fate) then Cancelled
                      else Returned(ReportedBy(old(service.Model(db)), attempts, fate))
  {
    BatchKeepsInv(service.Model(db), attempts, fate);
    var rows := OldestBatch(db.tables.outbox);
    IdsPrefix(Pending(db.tables.outbox), |rows|);
    result := service.MoveBatch(db, rows, attempts, fate);
  }

  /** One turn: rows arrive from other sessions, and then a batch is moved. */
  method TakeTurn(service: AuditOutboxService, db: Database, t: Turn) returns (result: Result)
    requires service.Ok() && Inv(service.Model(db)) && CanArrive(db.tables, t.arrivals)
    modifies service`metrics, service.retryCache, db
    ensures service.Ok() && Inv(service.Model(db))
    ensures service.Model(db) == AfterTurn(old(service.Model(db)), t)
    ensures result == if IsCancelled(t.fate) then Cancelled
                      else Returned(ReportedBy(AtBatch(old(service.Model(db)), t), t.attempts, t.fate))
  {
    ArrivalsExtend(service.Model(db), t.arrivals);
    db.tables := Arrived(db.tables, t.arrivals);
    result := MoveOldest(service, db, t.attempts, t.fate);
  }

  /** One round of the inner loop: a turn, and whether the loop goes on. */
  method NextTurn(service: AuditOutboxService, db: Database, turns: seq<Turn>, n: nat, ghost ws: seq<World>)
      returns (goesOn: bool, ghost us: seq<World>)
    requires service.Ok() && service.running && n < |turns|
    requires Trace(ws, turns, n) && ws[n] == service.Model(db) && Sound(ws[0], turns, 0) && RunsThrough(ws, turns, n)
    modifies service`metrics, service`running, service.retryCache, db
    ensures service.Ok() && service.running == !turns[n].stopped
    ensures Trace(us, turns, n + 1) && us[0] == ws[0] && us[n + 1] == service.Model(db)
    ensures if goesOn then service.running && RunsThrough(us, turns, n + 1) else EndsAfter(us, turns, n + 1)
  {
    TraceIsSound(ws, turns, n);
    SoundNext(ws[n], turns, n);
    var result := TakeTurn(service, db, turns[n]);
    if turns[n].stopped {
      service.running := false;
    }
    goesOn := result.Returned? && result.moved > 0 && service.running;
    us := ws + [service.Model(db)];
    TraceExtends(ws, turns, n, service.Model(db));
    RunsExtend(ws, turns, n, service.Model(db));
  }

  /** The inner loop of the mover, for as long as `turns` says what happens: batch after batch, until one is
      cancelled or reports nothing, or the service is found stopped. With N rows pending, a that arrive and
      k transactions that do not take effect, it ends within N + a + k + 1 batches. */
  method DrainBatches(service: AuditOutboxService, db: Database, turns: seq<Turn>)
      returns (batches: nat, ended: bool, ghost ws: seq<World>)
    requires service.Ok() && Inv(service.Model(db)) && CanArrive(db.tables, Arrivals(turns))
    modifies service`metrics, service`running, service.retryCache, db
    ensures service.Ok() && batches <= |turns|
    ensures Trace(ws, turns, batches) && ws[0] == old(service.Model(db)) && ws[batches] == service.Model(db)
    ensures ended && old(service.running) ==> EndsAfter(ws, turns, batches)
    ensures !ended ==> batches == |turns| && RunsThrough(ws, turns, |turns|)
    ensures !old(service.running) ==> ended && batches == 0
    ensures service.running == (old(service.running) && (batches == 0 || !turns[batches - 1].stopped))
    ensures |turns| > |PendingIds(ws[0].tables)| + |Arrivals(turns)| + Ineffective(turns, |turns|) ==> ended
  {
    ws := [service.Model(db)];
    batches, ended := 0, !service.running;
    if ended {
      return;
    }
    assert turns[0..] == turns;
    while batches < |turns|
      invariant batches <= |turns| && !ended && service.running && service.Ok()
      invariant Trace(ws, turns, batches) && ws[0] == old(service.Model(db)) && ws[batches] == service.Model(db)
      invariant RunsThrough(ws, turns, batches) && (batches == 0 || !turns[batches - 1].stopped)
    {
      var goesOn;
      goesOn, ws := NextTurn(service, db, turns, batches, ws);
      batches := batches + 1;
      if !goesOn {
        ended := true;
        break;
      }
    }
    if !ended {
      DrainEnds(ws, turns);
    }
  }

  // ---------------------------------------------------------------------------
  // The loop under failing commits
  // ---------------------------------------------------------------------------

  const FAILING := CommitBreaks(false, false)

  /** A row of the next batch that is below its limit. */
  ghost predicate Fit(w: World, x: string) {
    Inv(w) && x in Head(w.tables) && Count(w.cache, x) < MAX_RETRY_COUNT
  }

  lemma ArrivalsKeepFit(w: World, t: Turn, x: string)
    requires Fit(w, x) && CanArrive(w.tables, t.arrivals)
    ensures Fit(AtBatch(w, t), x)
  {
    ArrivalsExtend(w, t.arrivals);
    assert Head(w.tables) <= Head(AtBatch(w, t).tables);
  }

  /** A row that lands below its limit does so again in the next batch, when the commit fails in between. */
  lemma FailingCommitRepeats(w: World, attempts: Attempts, x: string)
    requires Fit(w, x) && Landed(attempts, x)
    ensures ReportedBy(w, attempts, FAILING) > 0 && Fit(AfterOne(w, attempts, FAILING), x)
  {
    BatchKeepsInv(w, attempts, FAILING);
    BatchEffect(w, attempts, FAILING);
    assert MovesSome(w, attempts, FAILING);
    ReportsIff(w, attempts, FAILING);
    assert Count(AfterOne(w, attempts, FAILING).cache, x) == CountAfter(w.cache, Head(w.tables), attempts, x);
  }

  /** Every commit fails, the database answers alike, and nobody stops the service. */
  ghost predicate AllFail(turns: seq<Turn>, attempts: Attempts) {
    forall i :: 0 <= i < |turns| ==> turns[i].attempts == attempts && turns[i].fate == FAILING && !turns[i].stopped
  }

  lemma FitAfter(w: World, t: Turn, x: string)
    requires Landed(t.attempts, x) && t.fate == FAILING && !t.stopped && Fit(AtBatch(w, t), x)
    ensures Fit(AfterTurn(w, t), x) && GoesOn(w, t)
  {
    FailingCommitRepeats(AtBatch(w, t), t.attempts, x);
  }

  lemma FitAtBatch(w: World, turns: seq<Turn>, n: nat, x: string)
    requires n < |turns| && Sound(w, turns, n) && Fit(w, x)
    ensures Fit(AtBatch(w, turns[n]), x)
  {
    SoundNext(w, turns, n);
    ArrivalsKeepFit(w, turns[n], x);
  }

  /** A turn from a state whose batch begins with a fit row. */
  lemma FitNext(ws: seq<World>, turns: seq<Turn>, attempts: Attempts, i: nat, x: string)
    requires Trace(ws, turns, |turns|) && i < |turns| && AllFail(turns, attempts) && Landed(attempts, x)
    requires Fit(AtBatch(ws[i], turns[i]), x)
    ensures Fit(ws[i + 1], x) && GoesOnAfter(ws, turns, i)
  {
    TraceTurn(ws, turns, |turns|, i);
    FitAfter(ws[i], turns[i], x);
  }

  lemma {:induction false} StaysFit(ws: seq<World>, turns: seq<Turn>, attempts: Attempts, n: nat, x: string)
    requires Trace(ws, turns, |turns|) && n < |turns| && AllFail(turns, attempts) && Landed(attempts, x)
    requires Sound(ws[0], turns, 0) && Fit(AtBatch(ws[0], turns[0]), x)
    ensures Fit(ws[n + 1], x) && GoesOnAfter(ws, turns, n)
  {
    if n > 0 {
      StaysFit(ws, turns, attempts, n - 1, x);
      TraceIsSound(ws, turns, n);
      FitAtBatch(ws[n], turns, n, x);
    }
    FitNext(ws, turns, attempts, n, x);
  }

  lemma OnlyArrivesNext(t: Tables, w: World, turns: seq<Turn>, n: nat)
    requires 0 < n <= |turns| && turns[n - 1].fate == FAILING && w.tables == Arrived(t, Arrivals(turns[..n - 1]))
    ensures AfterTurn(w, turns[n - 1]).tables == Arrived(t, Arrivals(turns[..n]))
  {
    var before, last := turns[..n - 1], turns[n - 1];
    ArrivalsStep(turns, n - 1);
    assert Arrivals(turns[..n]) == Arrivals(before) + last.arrivals;
    ArrivedJoin(t, Arrivals(before), last.arrivals);
  }

  lemma NoneArrived(t: Tables, turns: seq<Turn>)
    ensures Arrived(t, Arrivals(turns[..0])) == t
  {
    assert t.outbox + [] == t.outbox;
  }

  lemma {:induction false} OnlyArrivals(ws: seq<World>, turns: seq<Turn>, attempts: Attempts, n: nat)
    requires Trace(ws, turns, |turns|) && n <= |turns| && AllFail(turns, attempts)
    ensures ws[n].tables == Arrived(ws[0].tables, Arrivals(turns[..n]))
  {
    if n == 0 {
      NoneArrived(ws[0].tables, turns);
    } else {
      OnlyArrivals(ws, turns, attempts, n - 1);
      TraceTurn(ws, turns, |turns|, n - 1);
      OnlyArrivesNext(ws[0].tables, ws[n - 1], turns, n);
    }
  }

  lemma KeepsSpinning(ws: seq<World>, turns: seq<Turn>, attempts: Attempts, x: string)
    requires Trace(ws, turns, |turns|) && turns != [] && AllFail(turns, attempts) && Landed(attempts, x)
    requires Sound(ws[0], turns, 0) && Fit(AtBatch(ws[0], turns[0]), x)
    ensures RunsThrough(ws, turns, |turns|)
  {
    forall i: nat | i < |turns| ensures GoesOnAfter(ws, turns, i) {
      StaysFit(ws, turns, attempts, i, x);
    }
  }

  /** While commits fail without taking effect and the database otherwise answers alike, the loop ends with
      its first batch or not at all: it runs through any number of batches, reporting rows and moving none,
      exactly when some row of the first batch is below its retry limit and lands. */
  lemma FailingCommitsSpinIff(ws: seq<World>, turns: seq<Turn>, attempts: Attempts)
    requires Trace(ws, turns, |turns|) && turns != [] && AllFail(turns, attempts)
    requires Inv(ws[0]) && CanArrive(ws[0].tables, Arrivals(turns))
    ensures RunsThrough(ws, turns, |turns|) <==> MovesSome(AtBatch(ws[0], turns[0]), attempts, FAILING)
    ensures ws[|turns|].tables == Arrived(ws[0].tables, Arrivals(turns))
  {
    OnlyArrivals(ws, turns, attempts, |turns|);
    assert turns[..|turns|] == turns && turns[0..] == turns;
    var w := AtBatch(ws[0], turns[0]);
    SoundNext(ws[0], turns, 0);
    if MovesSome(w, attempts, FAILING) {
      var x :| x in Head(w.tables) && Count(w.cache, x) < MAX_RETRY_COUNT && Landed(attempts, x);
      KeepsSpinning(ws, turns, attempts, x);
    } else if RunsThrough(ws, turns, |turns|) {
      assert GoesOnAfter(ws, turns, 0);
      ReportsIff(w, attempts, FAILING);
    }
  }

  // ---------------------------------------------------------------------------
  // Stopping the mover
  // ---------------------------------------------------------------------------

  /** After the batch that the cancellation of the mover cuts short, if it is in one. */
  function AfterCut(w: World, cut: Option<Turn>): World {
    if cut.Some? then AfterTurn(w, cut.value) else w
  }

  /** Stopping a live mover ends with one more batch; without a live mover there is none. */
  function AfterStop(w: World, live: bool, cut: Option<Turn>, flush: Turn): World {
    if live then AfterTurn(AfterCut(w, cut), flush) else w
  }

  ghost predicate CanCut(w: World, cut: Option<Turn>) {
    cut.Some? ==> CanArrive(w.tables, cut.value.arrivals)
  }

  lemma CutKeepsInv(w: World, cut: Option<Turn>)
    requires Inv(w) && CanCut(w, cut)
    ensures Inv(AfterCut(w, cut))
  {
    if cut.Some? {
      ArrivalsExtend(w, cut.value.arrivals);
      BatchKeepsInv(AtBatch(w, cut.value), cut.value.attempts, cut.value.fate);
    }
  }

  /** `stop_mover` leaves nothing unprocessed exactly when, without a live mover, nothing was; and with one,
      nothing is when the flush begins, or its transaction takes effect, it finds at most BATCH_SIZE rows,
      and each of them lands or is at its retry limit. */
  lemma StopEmptiesIff(w: World, live: bool, cut: Option<Turn>, flush: Turn)
    requires Inv(w) && CanCut(w, cut) && CanArrive(AfterCut(w, cut).tables, flush.arrivals)
    ensures PendingIds(AfterStop(w, live, cut, flush).tables) == []
       <==> if live then
              var v := AtBatch(AfterCut(w, cut), flush);
              PendingIds(v.tables) == []
              || (Applies(flush.fate) && |PendingIds(v.tables)| <= BATCH_SIZE && AllLeave(v, flush.attempts))
            else PendingIds(w.tables) == []
  {
    CutKeepsInv(w, cut);
    ArrivalsExtend(AfterCut(w, cut), flush.arrivals);
    FlushEmptiesIff(AtBatch(AfterCut(w, cut), flush), flush.attempts, flush.fate);
  }

  /** A service whose mover is not live, and one row that the flush would have moved: no flush runs. */
  lemma StopWithoutMoverLeavesRow()
    ensures var w, flush := World(Tables([Row("a", 0, false)], multiset{}), EMPTY, NO_METRICS),
                            Turn([], map["a" := Inserted], Commits, false);
            && Inv(w) && AllLeave(w, flush.attempts)
            && PendingIds(AfterStop(w, true, None, flush).tables) == []
            && PendingIds(AfterStop(w, false, None, flush).tables) == ["a"]
  {
    var w, flush := World(Tables([Row("a", 0, false)], multiset{}), EMPTY, NO_METRICS),
                    Turn([], map["a" := Inserted], Commits, false);
    assert PendingIds(w.tables) == ["a"];
    assert w.tables.outbox + [] == w.tables.outbox;
    StopEmptiesIff(w, true, None, flush);
  }

  /** Stops the service, whatever its mover is doing, and flushes one batch if the mover was live. */
  method StopMover(service: AuditOutboxService, db: Database, cut: Option<Turn>, flush: Turn)
      returns (flushed: Option<Result>)
    requires service.Ok() && Inv(service.Model(db)) && CanCut(service.Model(db), cut)
    requires CanArrive(AfterCut(service.Model(db), cut).tables, flush.arrivals)
    modifies service`metrics, service`running, service`live, service.retryCache, db
    ensures service.Ok() && !service.running && !service.live
    ensures service.Model(db) == AfterStop(old(service.Model(db)), old(service.live), cut, flush)
    ensures var was := old(service.Model(db));
            service.Model(db) == if !old(service.live) then was
                                 else if cut.Some? then AfterTurn(AfterTurn(was, cut.value), flush)
                                 else AfterTurn(was, flush)
    ensures flushed.Some? <==> old(service.live)
    ensures flushed.Some? ==> (flushed.value.Returned? <==> !IsCancelled(flush.fate))
  {
    service.running := false;
    flushed := None;
    if service.live {
      if cut.Some? {
        var _ := TakeTurn(service, db, cut.value);
      }
      service.live := false;
      var result := TakeTurn(service, db, flush);
      flushed := Some(result);
    }
  }
}
