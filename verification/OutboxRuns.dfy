/** Whole runs of the outbox with one mover: no count is lost, and committed batches drain it. */
module OutboxRuns {
  import opened Common
  import opened LruRetryCache
  import opened OutboxProtocol
  import opened OutboxBatch
  import opened AuditOutbox

  function PendingIds(t: Tables): seq<string> {
    Ids(Pending(t.outbox))
  }

  /** The ids of the next batch: the oldest pending rows, at most BATCH_SIZE of them. */
  function Head(t: Tables): seq<string> {
    PendingIds(t)[..Min(BATCH_SIZE, |PendingIds(t)|)]
  }

  lemma HeadIsSelected(t: Tables, rows: seq<Row>)
    requires DistinctIds(t.outbox) && ArrivedInOrder(t.outbox) && Selected(t.outbox, {}, rows)
    ensures Ids(rows) == Head(t)
  {
    SelectedIsOldest(t.outbox, rows);
  }

  datatype Event =
    | Arrival(row: Row)
    | Batch(attempts: Attempts, fate: Fate)
    | Restart

  /** A row arrives unprocessed, with a new id and a later creation time than the rows present. */
  ghost predicate Enabled(w: World, e: Event) {
    e.Arrival? ==>
      && !e.row.processed
      && forall r :: r in w.tables.outbox ==> r.id != e.row.id && r.createdAt < e.row.createdAt
  }

  function Step(w: World, e: Event, max: nat): World {
    match e
    case Arrival(row) => w.(tables := w.tables.(outbox := w.tables.outbox + [row]))
    case Batch(attempts, fate) => AfterBatch(w, Head(w.tables), attempts, fate, max)
    case Restart => w.(cache := EMPTY)
  }

  ghost predicate Inv(w: World) {
    && DistinctIds(w.tables.outbox)
    && ArrivedInOrder(w.tables.outbox)
    && Valid(w.cache)
    && (forall k :: k in w.cache.counts ==> k in Head(w.tables) && w.cache.counts[k] <= MAX_RETRY_COUNT)
  }

  // ---------------------------------------------------------------------------
  // Sequences of ids
  // ---------------------------------------------------------------------------

  lemma PendingIdsNoDup(t: Tables)
    requires DistinctIds(t.outbox)
    ensures NoDup(PendingIds(t))
  {
    PendingDistinct(t.outbox);
  }

  lemma InPrefix(s: seq<string>, n: nat, i: nat)
    requires i < n <= |s|
    ensures s[i] in s[..n]
  {
    assert s[..n][i] == s[i];
  }

  lemma {:induction false} InFirst(a: seq<string>, b: seq<string>, n: nat, x: string)
    requires x in a && |a| <= n
    ensures x in (a + b)[..Min(n, |a + b|)]
  {
    var i :| 0 <= i < |a| && a[i] == x;
    InPrefix(a + b, Min(n, |a + b|), i);
  }

  lemma {:induction false} FilterSplit(s: seq<string>, n: nat, gone: set<string>)
    requires n <= |s|
    ensures Filter(s, gone) == Filter(s[..n], gone) + Filter(s[n..], gone)
  {
    assert s[..n] + s[n..] == s;
    FilterAppend(s[..n], s[n..], gone);
  }

  /** What survives of a head stays in the head. */
  lemma {:induction false} HeadShrinks(s: seq<string>, n: nat, gone: set<string>, x: string)
    requires n <= |s| && n <= BATCH_SIZE && x in s[..n] && x !in gone
    ensures x in Filter(s, gone)[..Min(BATCH_SIZE, |Filter(s, gone)|)]
  {
    FilterSplit(s, n, gone);
    InFirst(Filter(s[..n], gone), Filter(s[n..], gone), BATCH_SIZE, x);
  }

  lemma HeadRoomy(w: World, ids: seq<string>)
    requires Inv(w) && ids <= Head(w.tables)
    ensures Roomy(w.cache, ids, Elems(Head(w.tables))) && NoDup(ids)
    ensures |Elems(Head(w.tables))| <= BATCH_SIZE
  {
    PendingIdsNoDup(w.tables);
    NoDupElems(Head(w.tables));
  }

  // ---------------------------------------------------------------------------
  // The invariant
  // ---------------------------------------------------------------------------

  lemma ArrivalKeepsOrder(outbox: seq<Row>, row: Row)
    requires DistinctIds(outbox) && ArrivedInOrder(outbox)
    requires forall r :: r in outbox ==> r.id != row.id && r.createdAt < row.createdAt
    ensures DistinctIds(outbox + [row]) && ArrivedInOrder(outbox + [row])
  {
    assert forall i :: 0 <= i < |outbox| ==> outbox[i] in outbox;
  }

  lemma {:induction false} ArrivalKeepsInv(w: World, row: Row)
    requires Inv(w) && Enabled(w, Arrival(row))
    ensures Inv(Step(w, Arrival(row), MAX_RETRY_CACHE_SIZE))
  {
    ArrivalKeepsOrder(w.tables.outbox, row);
    PendingAppend(w.tables.outbox, row);
    IdsAppend(Pending(w.tables.outbox), [row]);
    var now := w.tables.(outbox := w.tables.outbox + [row]);
    assert PendingIds(now) == PendingIds(w.tables) + Ids([row]);
    assert Head(w.tables) <= Head(now);
  }

  /** What a batch leaves pending, and the counts it leaves. */
  lemma BatchEffect(w: World, attempts: Attempts, fate: Fate)
    requires Inv(w)
    ensures var ids, v := Reached(Head(w.tables), fate),
                          Step(w, Batch(attempts, fate), MAX_RETRY_CACHE_SIZE);
            && Verdicts(w.cache, ids, attempts,
                        BatchWork(w.cache, Head(w.tables), attempts, fate, MAX_RETRY_CACHE_SIZE))
            && Valid(v.cache)
            && (forall x :: Count(v.cache, x) == CountAfter(w.cache, ids, attempts, x))
    ensures var v, work := Step(w, Batch(attempts, fate), MAX_RETRY_CACHE_SIZE),
                           BatchWork(w.cache, Head(w.tables), attempts, fate, MAX_RETRY_CACHE_SIZE);
            PendingIds(v.tables) == if Applies(fate)
                                    then Filter(PendingIds(w.tables), Elems(work.succeeded) + Elems(work.poisoned))
                                    else PendingIds(w.tables)
  {
    var ids := Reached(Head(w.tables), fate);
    HeadRoomy(w, ids);
    BatchVerdicts(w.cache, ids, attempts, MAX_RETRY_CACHE_SIZE, Elems(Head(w.tables)));
    var work := BatchWork(w.cache, Head(w.tables), attempts, fate, MAX_RETRY_CACHE_SIZE);
    SettledPending(w.tables.outbox, work.succeeded, work.poisoned);
  }

  lemma MarkedOrder(outbox: seq<Row>, ids: seq<string>)
    requires DistinctIds(outbox) && ArrivedInOrder(outbox)
    ensures DistinctIds(Marked(outbox, ids)) && ArrivedInOrder(Marked(outbox, ids))
  {
  }

  lemma BatchKeepsOrder(w: World, attempts: Attempts, fate: Fate)
    requires Inv(w)
    ensures var v := Step(w, Batch(attempts, fate), MAX_RETRY_CACHE_SIZE);
            DistinctIds(v.tables.outbox) && ArrivedInOrder(v.tables.outbox)
  {
    var work := BatchWork(w.cache, Head(w.tables), attempts, fate, MAX_RETRY_CACHE_SIZE);
    DeletedDistinct(w.tables.outbox, work.succeeded);
    DeletedInOrder(w.tables.outbox, work.succeeded);
    MarkedOrder(Deleted(w.tables.outbox, work.succeeded), work.poisoned);
  }

  /** A row that the cache tracks after a batch was in the batch and is not removed by it. */
  lemma {:induction false} TrackedIsKept(w: World, attempts: Attempts, fate: Fate, k: string)
    requires Inv(w)
    ensures var v, work := Step(w, Batch(attempts, fate), MAX_RETRY_CACHE_SIZE),
                           BatchWork(w.cache, Head(w.tables), attempts, fate, MAX_RETRY_CACHE_SIZE);
            k in v.cache.counts ==> k in Head(w.tables) && k !in work.succeeded && k !in work.poisoned
                                    && v.cache.counts[k] <= MAX_RETRY_COUNT
  {
    BatchEffect(w, attempts, fate);
    var v := Step(w, Batch(attempts, fate), MAX_RETRY_CACHE_SIZE);
    assert Count(v.cache, k) == CountAfter(w.cache, Reached(Head(w.tables), fate), attempts, k);
  }

  lemma {:induction false} TrackedStaysInHead(w: World, attempts: Attempts, fate: Fate, k: string)
    requires Inv(w)
    ensures var v := Step(w, Batch(attempts, fate), MAX_RETRY_CACHE_SIZE);
            k in v.cache.counts ==> k in Head(v.tables) && v.cache.counts[k] <= MAX_RETRY_COUNT
  {
    var v := Step(w, Batch(attempts, fate), MAX_RETRY_CACHE_SIZE);
    if k in v.cache.counts {
      var work := BatchWork(w.cache, Head(w.tables), attempts, fate, MAX_RETRY_CACHE_SIZE);
      TrackedIsKept(w, attempts, fate, k);
      BatchEffect(w, attempts, fate);
      HeadShrinks(PendingIds(w.tables), |Head(w.tables)|, Elems(work.succeeded) + Elems(work.poisoned), k);
    }
  }

  lemma BatchKeepsInv(w: World, attempts: Attempts, fate: Fate)
    requires Inv(w)
    ensures Inv(Step(w, Batch(attempts, fate), MAX_RETRY_CACHE_SIZE))
  {
    var v := Step(w, Batch(attempts, fate), MAX_RETRY_CACHE_SIZE);
    BatchKeepsOrder(w, attempts, fate);
    BatchEffect(w, attempts, fate);
    forall k | k in v.cache.counts
      ensures k in Head(v.tables) && v.cache.counts[k] <= MAX_RETRY_COUNT
    {
      TrackedStaysInHead(w, attempts, fate, k);
    }
  }

  lemma StepKeepsInv(w: World, e: Event)
    requires Inv(w) && Enabled(w, e)
    ensures Inv(Step(w, e, MAX_RETRY_CACHE_SIZE))
  {
    match e {
      case Arrival(row) => ArrivalKeepsInv(w, row);
      case Batch(attempts, fate) => BatchKeepsInv(w, attempts, fate);
      case Restart =>
    }
  }

  // ---------------------------------------------------------------------------
  // Retry counts are never lost to the bound of the cache
  // ---------------------------------------------------------------------------

  const START := World(Tables([], multiset{}), EMPTY, NO_METRICS)

  function RunFrom(w: World, events: seq<Event>, max: nat): World
    decreases |events|
  {
    if events == [] then w else RunFrom(Step(w, events[0], max), events[1..], max)
  }

  ghost predicate Admissible(w: World, events: seq<Event>)
    decreases |events|
  {
    events == [] ||
    (Enabled(w, events[0]) && Admissible(Step(w, events[0], MAX_RETRY_CACHE_SIZE), events[1..]))
  }

  lemma StepIgnoresBound(w: World, e: Event, max: nat)
    requires Inv(w) && max >= BATCH_SIZE
    ensures Step(w, e, max) == Step(w, e, MAX_RETRY_CACHE_SIZE)
  {
    if e.Batch? {
      var ids := Reached(Head(w.tables), e.fate);
      HeadRoomy(w, ids);
      BoundInvisible(w.cache, ids, e.attempts, max, MAX_RETRY_CACHE_SIZE, Elems(Head(w.tables)));
    }
  }

  lemma {:induction false} RunIgnoresBound(w: World, events: seq<Event>, max: nat)
    requires Inv(w) && Admissible(w, events) && max >= BATCH_SIZE
    ensures RunFrom(w, events, max) == RunFrom(w, events, MAX_RETRY_CACHE_SIZE)
    ensures Inv(RunFrom(w, events, max))
    decreases |events|
  {
    if events != [] {
      StepIgnoresBound(w, events[0], max);
      StepKeepsInv(w, events[0]);
      RunIgnoresBound(Step(w, events[0], MAX_RETRY_CACHE_SIZE), events[1..], max);
    }
  }

  /** In every run of one mover, with rows arriving in order and any mixture of committed, broken and
      cancelled batches, the cache tracks only rows of the next batch, so it never holds more than
      BATCH_SIZE keys, and the mover behaves exactly as with a cache that has no bound. */
  lemma CacheNeverEvicts(events: seq<Event>, unbounded: nat)
    requires Admissible(START, events) && unbounded >= BATCH_SIZE
    ensures var w := RunFrom(START, events, MAX_RETRY_CACHE_SIZE);
            && RunFrom(START, events, unbounded) == w
            && (forall k :: k in w.cache.counts ==> k in Head(w.tables))
            && |w.cache.order| <= BATCH_SIZE
  {
    RunIgnoresBound(START, events, unbounded);
    var w := RunFrom(START, events, MAX_RETRY_CACHE_SIZE);
    HeadRoomy(w, []);
    RoomBounds(w.cache, Elems(Head(w.tables)));
  }

  // ---------------------------------------------------------------------------
  // Committed batches make progress
  // ---------------------------------------------------------------------------

  function CommitBatch(w: World, attempts: Attempts): World {
    Step(w, Batch(attempts, Commits), MAX_RETRY_CACHE_SIZE)
  }

  function CommitBatches(w: World, answers: seq<Attempts>): World
    decreases |answers|
  {
    if answers == [] then w else CommitBatches(CommitBatch(w, answers[0]), answers[1..])
  }

  /** Which pending rows a committed batch removes, and how the others age. */
  lemma CommitVerdict(w: World, attempts: Attempts, x: string)
    requires Inv(w)
    ensures Inv(CommitBatch(w, attempts))
    ensures x in PendingIds(CommitBatch(w, attempts).tables) <==>
            x in PendingIds(w.tables) &&
            (x in Head(w.tables) ==> Count(w.cache, x) < MAX_RETRY_COUNT && !Landed(attempts, x))
    ensures x in PendingIds(CommitBatch(w, attempts).tables) ==>
              Count(CommitBatch(w, attempts).cache, x) == Count(w.cache, x) + if x in Head(w.tables) then 1 else 0
    ensures x in Head(w.tables) && x in PendingIds(CommitBatch(w, attempts).tables) ==>
              x in Head(CommitBatch(w, attempts).tables)
  {
    BatchKeepsInv(w, attempts, Commits);
    BatchEffect(w, attempts, Commits);
    var work := BatchWork(w.cache, Head(w.tables), attempts, Commits, MAX_RETRY_CACHE_SIZE);
    var gone := Elems(work.succeeded) + Elems(work.poisoned);
    if x in Head(w.tables) && x !in gone {
      HeadShrinks(PendingIds(w.tables), |Head(w.tables)|, gone, x);
    }
  }

  // ---------------------------------------------------------------------------
  // What one batch does to one row
  // ---------------------------------------------------------------------------

  ghost predicate InOutbox(t: Tables, x: string) {
    exists r :: r in t.outbox && r.id == x
  }

  ghost predicate IsPill(t: Tables, x: string) {
    exists r :: r in t.outbox && r.id == x && r.processed
  }

  lemma {:induction false} IdsIff(rows: seq<Row>, x: string)
    ensures x in Ids(rows) <==> exists r :: r in rows && r.id == x
  {
    if x in Ids(rows) {
      var i :| 0 <= i < |rows| && Ids(rows)[i] == x;
      assert rows[i] in rows;
    }
    if exists r :: r in rows && r.id == x {
      var r :| r in rows && r.id == x;
      var i :| 0 <= i < |rows| && rows[i] == r;
      assert Ids(rows)[i] == x;
    }
  }

  lemma WaitingIff(t: Tables, x: string)
    ensures x in PendingIds(t) <==> exists r :: r in t.outbox && r.id == x && !r.processed
  {
    IdsIff(Pending(t.outbox), x);
  }

  /** Rows whose id is among the successes are gone, rows whose id is among the poison pills are marked. */
  lemma SettledRow(t: Tables, work: Work, r: Row)
    requires r in t.outbox
    ensures InOutbox(Settled(t, work), r.id) ==> r.id !in work.succeeded
    ensures r.id !in work.succeeded ==>
              (if r.id in work.poisoned then r.(processed := true) else r) in Settled(t, work).outbox
  {
    var left := Deleted(t.outbox, work.succeeded);
    DeletedRows(t.outbox, work.succeeded);
    if InOutbox(Settled(t, work), r.id) {
      var q :| q in Settled(t, work).outbox && q.id == r.id;
      var i :| 0 <= i < |left| && Marked(left, work.poisoned)[i] == q;
      assert left[i] in left;
    }
    if r.id !in work.succeeded {
      var i :| 0 <= i < |left| && left[i] == r;
      assert Marked(left, work.poisoned)[i] in Marked(left, work.poisoned);
    }
  }

  lemma LoggedOnce(log: multiset<string>, inserts: seq<string>, x: string)
    requires NoDup(inserts)
    ensures (log + multiset(inserts))[x] == log[x] + if x in inserts then 1 else 0
  {
    CountedOnce(inserts, x);
  }

  lemma {:induction false} CountedOnce(s: seq<string>, x: string)
    requires NoDup(s)
    ensures multiset(s)[x] == if x in s then 1 else 0
  {
    if s != [] {
      var init, last := s[..|s| - 1], s[|s| - 1];
      assert s == init + [last];
      CountedOnce(init, x);
      assert x in s <==> x in init || x == last;
    }
  }

  /** A pending row in the tables that a batch leaves, by the list it is in. */
  lemma RowSettled(t: Tables, work: Work, x: string)
    requires x in PendingIds(t) && NoDup(work.succeeded) && work.inserts == work.succeeded
    requires x in work.succeeded ==> x !in work.poisoned
    ensures var u := Settled(t, work);
            if x in work.succeeded then !InOutbox(u, x) && u.log[x] == t.log[x] + 1
            else u.log[x] == t.log[x] && if x in work.poisoned then IsPill(u, x) else x in PendingIds(u)
  {
    WaitingIff(t, x);
    var r :| r in t.outbox && r.id == x && !r.processed;
    SettledRow(t, work, r);
    WaitingIff(Settled(t, work), x);
    LoggedOnce(t.log, work.inserts, x);
  }

  lemma BatchLists(w: World, attempts: Attempts, x: string)
    requires Inv(w)
    ensures var ids := Head(w.tables);
            var work := ProcessRows(Start(w.cache), ids, attempts, MAX_RETRY_CACHE_SIZE);
            && NoDup(work.succeeded) && work.inserts == work.succeeded
            && (x in work.succeeded ==> x !in work.poisoned)
            && (x in work.poisoned <==> x in ids && Count(w.cache, x) >= MAX_RETRY_COUNT)
            && (x in work.succeeded <==> x in ids && Count(w.cache, x) < MAX_RETRY_COUNT && Landed(attempts, x))
            && Count(work.cache, x) == CountAfter(w.cache, ids, attempts, x)
  {
    var ids := Head(w.tables);
    HeadRoomy(w, ids);
    ListsWithinBatch(w.cache, ids, attempts, MAX_RETRY_CACHE_SIZE);
    BatchVerdicts(w.cache, ids, attempts, MAX_RETRY_CACHE_SIZE, Elems(ids));
  }

  lemma AppliedBatch(w: World, attempts: Attempts, fate: Fate)
    requires fate == Commits || (fate.CommitBreaks? && fate.applied)
    ensures var v, work := Step(w, Batch(attempts, fate), MAX_RETRY_CACHE_SIZE),
                           ProcessRows(Start(w.cache), Head(w.tables), attempts, MAX_RETRY_CACHE_SIZE);
            v.tables == Settled(w.tables, work) && v.cache == work.cache
  {
  }

  /** A pending row, after a batch whose transaction takes effect. Outside the batch nothing happens to it.
      In the batch, with three recorded failures it becomes a poison pill; with fewer it leaves the outbox for
      the log, once, if its insert works, at once or after its missing partition has been created; otherwise
      it stays with one failure more. */
  lemma RowAfterBatch(w: World, attempts: Attempts, fate: Fate, x: string)
    requires Inv(w) && x in PendingIds(w.tables) && (fate == Commits || (fate.CommitBreaks? && fate.applied))
    ensures var v := Step(w, Batch(attempts, fate), MAX_RETRY_CACHE_SIZE);
            var n, log := Count(w.cache, x), w.tables.log[x];
            if x !in Head(w.tables) then
              x in PendingIds(v.tables) && v.tables.log[x] == log && Count(v.cache, x) == n
            else if n >= 3 then
              IsPill(v.tables, x) && v.tables.log[x] == log && Count(v.cache, x) == 0
            else if x in attempts && (attempts[x] == Inserted || attempts[x] == NoPartition(true, true)) then
              !InOutbox(v.tables, x) && v.tables.log[x] == log + 1 && Count(v.cache, x) == 0
            else
              x in PendingIds(v.tables) && v.tables.log[x] == log && Count(v.cache, x) == n + 1
  {
    AppliedBatch(w, attempts, fate);
    BatchLists(w, attempts, x);
    RowSettled(w.tables, ProcessRows(Start(w.cache), Head(w.tables), attempts, MAX_RETRY_CACHE_SIZE), x);
  }

  /** A batch whose transaction does not take effect leaves the tables alone; the rows it got to age or are
      forgotten all the same. */
  lemma RowAfterFailedBatch(w: World, attempts: Attempts, fate: Fate, x: string)
    requires Inv(w) && (fate.Breaks? || (fate.CommitBreaks? && !fate.applied))
    ensures var v := Step(w, Batch(attempts, fate), MAX_RETRY_CACHE_SIZE);
            var ids, n := Head(w.tables), Count(w.cache, x);
            var reached := if fate.Breaks? && fate.rows < |ids| then ids[..fate.rows] else ids;
            var works := x in attempts && (attempts[x] == Inserted || attempts[x] == NoPartition(true, true));
            && v.tables == w.tables
            && Count(v.cache, x) == if x !in reached then n else if n >= 3 || works then 0 else n + 1
  {
    BatchEffect(w, attempts, fate);
    var v := Step(w, Batch(attempts, fate), MAX_RETRY_CACHE_SIZE);
    var ids := Head(w.tables);
    assert fate.Breaks? && fate.rows >= |ids| ==> ids[..|ids|] == ids;
    assert Count(v.cache, x) == CountAfter(w.cache, Reached(ids, fate), attempts, x);
  }

  /** A row without a partition that is created, and whose second insert works, is moved. */
  lemma RetriedInsertMoves()
    ensures var w := World(Tables([Row("a", 0, false)], multiset{}), EMPTY, NO_METRICS);
            Inv(w) && Step(w, Batch(map["a" := NoPartition(true, true)], Commits), MAX_RETRY_CACHE_SIZE).tables
                      == Tables([], multiset{"a"})
  {
    var w := World(Tables([Row("a", 0, false)], multiset{}), EMPTY, NO_METRICS);
    var attempts: Attempts := map["a" := NoPartition(true, true)];
    assert PendingIds(w.tables) == ["a"] && Head(w.tables) == ["a"];
    assert ["a"][..0] == [];
    assert ProcessRows(Start(EMPTY), ["a"][..0], attempts, MAX_RETRY_CACHE_SIZE) == Start(EMPTY);
    assert Deleted(w.tables.outbox, ["a"]) == [];
  }

  /** Four committed batches remove every row that was in the head at the start. */
  lemma {:induction false} HeadAges(w: World, answers: seq<Attempts>, x: string, age: nat)
    requires Inv(w) && age + |answers| == MAX_RETRY_COUNT + 1
    requires x in PendingIds(w.tables) ==> x in Head(w.tables) && Count(w.cache, x) >= age
    ensures answers != [] ==> x !in PendingIds(CommitBatches(w, answers).tables)
    decreases |answers|
  {
    if answers != [] {
      CommitVerdict(w, answers[0], x);
      HeadAges(CommitBatch(w, answers[0]), answers[1..], x, age + 1);
    }
  }

  /** Committed batches only take rows out, and keep the others in order. */
  lemma {:induction false} CommitsOnlyRemove(w: World, answers: seq<Attempts>) returns (gone: set<string>)
    requires Inv(w)
    ensures Inv(CommitBatches(w, answers))
    ensures PendingIds(CommitBatches(w, answers).tables) == Filter(PendingIds(w.tables), gone)
    decreases |answers|
  {
    if answers == [] {
      gone := {};
      FilterNone(PendingIds(w.tables));
    } else {
      BatchKeepsInv(w, answers[0], Commits);
      BatchEffect(w, answers[0], Commits);
      var work := BatchWork(w.cache, Head(w.tables), answers[0], Commits, MAX_RETRY_CACHE_SIZE);
      var first := Elems(work.succeeded) + Elems(work.poisoned);
      var rest := CommitsOnlyRemove(CommitBatch(w, answers[0]), answers[1..]);
      gone := first + rest;
      FilterTwice(PendingIds(w.tables), first, rest);
    }
  }

  lemma FilterNone(s: seq<string>)
    ensures Filter(s, {}) == s
  {
  }

  lemma FilterTwice(s: seq<string>, a: set<string>, b: set<string>)
    ensures Filter(Filter(s, a), b) == Filter(s, a + b)
  {
  }

  lemma {:induction false} CommitsSplit(w: World, a: seq<Attempts>, b: seq<Attempts>)
    ensures CommitBatches(w, a + b) == CommitBatches(CommitBatches(w, a), b)
    decreases |a|
  {
    if a == [] {
      assert a + b == b;
    } else {
      assert (a + b)[1..] == a[1..] + b;
      CommitsSplit(CommitBatch(w, a[0]), a[1..], b);
    }
  }

  lemma {:induction false} FilterDropsPrefix(s: seq<string>, n: nat, gone: set<string>)
    requires n <= |s| && forall i :: 0 <= i < n ==> s[i] in gone
    ensures |Filter(s, gone)| <= |s| - n
  {
    if n > 0 {
      FilterDropsPrefix(s[1..], n - 1, gone);
    }
  }

  lemma RoundShrinks(w: World, answers: seq<Attempts>)
    requires Inv(w) && |answers| == MAX_RETRY_COUNT + 1
    ensures Inv(CommitBatches(w, answers))
    ensures |PendingIds(CommitBatches(w, answers).tables)| <= |PendingIds(w.tables)| - |Head(w.tables)|
  {
    var ids, n := PendingIds(w.tables), |Head(w.tables)|;
    var gone := CommitsOnlyRemove(w, answers);
    forall i | 0 <= i < n ensures ids[i] in gone {
      assert Head(w.tables)[i] == ids[i];
      HeadAges(w, answers, ids[i], 0);
      assert ids[i] !in Filter(ids, gone);
    }
    FilterDropsPrefix(ids, n, gone);
  }

  /** The number of batches that hold `n` rows. */
  function BatchesOf(n: nat): nat {
    (n + BATCH_SIZE - 1) / BATCH_SIZE
  }

  lemma OneBatchFewer(n: nat, m: nat)
    requires n > 0 && m <= n - Min(BATCH_SIZE, n)
    ensures BatchesOf(n) >= 1 + BatchesOf(m)
  {
  }

  /** Whichever rows fail, (MAX_RETRY_COUNT + 1) * ceil(N / BATCH_SIZE) committed batches leave none of
      N pending rows unprocessed. */
  lemma {:induction false} DrainBound(w: World, answers: seq<Attempts>)
    requires Inv(w) && |answers| >= (MAX_RETRY_COUNT + 1) * BatchesOf(|PendingIds(w.tables)|)
    ensures PendingIds(CommitBatches(w, answers).tables) == []
    decreases |PendingIds(w.tables)|
  {
    if PendingIds(w.tables) == [] {
      var gone := CommitsOnlyRemove(w, answers);
    } else {
      OneBatchFewer(|PendingIds(w.tables)|, 0);
      var round, rest := answers[..MAX_RETRY_COUNT + 1], answers[MAX_RETRY_COUNT + 1..];
      RoundShrinks(w, round);
      CommitsSplit(w, round, rest);
      assert answers == round + rest;
      var left := CommitBatches(w, round);
      OneBatchFewer(|PendingIds(w.tables)|, |PendingIds(left.tables)|);
      DrainBound(left, rest);
    }
  }

  /** So every outbox that one mover can be left with drains within that many batches, whatever broke
      before. */
  lemma ReachableOutboxDrains(events: seq<Event>, answers: seq<Attempts>)
    requires Admissible(START, events)
    requires var w := RunFrom(START, events, MAX_RETRY_CACHE_SIZE);
             |answers| >= (MAX_RETRY_COUNT + 1) * BatchesOf(|PendingIds(w.tables)|)
    ensures PendingIds(CommitBatches(RunFrom(START, events, MAX_RETRY_CACHE_SIZE), answers).tables) == []
  {
    RunIgnoresBound(START, events, MAX_RETRY_CACHE_SIZE);
    DrainBound(RunFrom(START, events, MAX_RETRY_CACHE_SIZE), answers);
  }
}
