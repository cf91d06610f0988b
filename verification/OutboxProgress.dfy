/** What committed batches cost: the failure budget of each row, the measure that every batch lowers, and
    the outboxes that use up the whole drain bound. */
module OutboxProgress {
  import opened Common
  import opened LruRetryCache
  import opened OutboxProtocol
  import opened AuditOutbox
  import opened OutboxRuns

  // ---------------------------------------------------------------------------
  // The failure budget of one row
  // ---------------------------------------------------------------------------

  /** The number of committed batches in which the move of row `x` fails. */
  ghost function FailingBatches(w: World, answers: seq<Attempts>, x: string): nat
    decreases |answers|
  {
    if answers == [] then 0
    else
      (if x in Head(w.tables) && Count(w.cache, x) < MAX_RETRY_COUNT && !Landed(answers[0], x) then 1 else 0)
      + FailingBatches(CommitBatch(w, answers[0]), answers[1..], x)
  }

  /** A row still pending has as many recorded retries as it had failing batches. */
  lemma {:induction false} RetriesAreFailures(w: World, answers: seq<Attempts>, x: string)
    requires Inv(w) && x in PendingIds(CommitBatches(w, answers).tables)
    ensures Count(CommitBatches(w, answers).cache, x) == Count(w.cache, x) + FailingBatches(w, answers, x)
    ensures x in PendingIds(w.tables)
    decreases |answers|
  {
    if answers != [] {
      CommitVerdict(w, answers[0], x);
      RetriesAreFailures(CommitBatch(w, answers[0]), answers[1..], x);
    }
  }

  lemma {:induction false} GoneRowsDoNotFail(w: World, answers: seq<Attempts>, x: string)
    requires Inv(w) && x !in PendingIds(w.tables)
    ensures FailingBatches(w, answers, x) == 0
    decreases |answers|
  {
    if answers != [] {
      CommitVerdict(w, answers[0], x);
      GoneRowsDoNotFail(CommitBatch(w, answers[0]), answers[1..], x);
    }
  }

  /** While batches commit, a row with no recorded retries fails in at most MAX_RETRY_COUNT of them. */
  lemma {:induction false} FailuresAreBounded(w: World, answers: seq<Attempts>, x: string)
    requires Inv(w)
    ensures FailingBatches(w, answers, x) + Count(w.cache, x) <= MAX_RETRY_COUNT
    decreases |answers|
  {
    if answers != [] {
      CommitVerdict(w, answers[0], x);
      var next := CommitBatch(w, answers[0]);
      if x in PendingIds(next.tables) {
        FailuresAreBounded(next, answers[1..], x);
      } else {
        GoneRowsDoNotFail(next, answers[1..], x);
      }
    }
  }

  /** A row without recorded retries is poisoned by the next batch exactly when it is pending and has
      failed in MAX_RETRY_COUNT committed batches. */
  lemma PoisonedAfterExactlyMaxFailures(w: World, answers: seq<Attempts>, next: Attempts, x: string)
    requires Inv(w) && Count(w.cache, x) == 0
    ensures var v := CommitBatches(w, answers);
            x in BatchWork(v.cache, Head(v.tables), next, Commits, MAX_RETRY_CACHE_SIZE).poisoned <==>
            x in Head(v.tables) && FailingBatches(w, answers, x) == MAX_RETRY_COUNT
  {
    var v := CommitBatches(w, answers);
    var _ := CommitsOnlyRemove(w, answers);
    BatchEffect(v, next, Commits);
    FailuresAreBounded(w, answers, x);
    if x in Head(v.tables) {
      RetriesAreFailures(w, answers, x);
    }
  }

  // ---------------------------------------------------------------------------
  // The measure
  // ---------------------------------------------------------------------------

  /** The batches the pending rows can still take up: 1 + the failures each has left. */
  function Budget(ids: seq<string>, c: Cache): int {
    if ids == [] then 0
    else MAX_RETRY_COUNT + 1 - Count(c, ids[0]) + Budget(ids[1..], c)
  }

  /** How many of the ids lie in `head`. */
  function Members(ids: seq<string>, head: set<string>): nat {
    if ids == [] then 0 else (if ids[0] in head then 1 else 0) + Members(ids[1..], head)
  }

  lemma {:induction false} BudgetFalls(ids: seq<string>, before: Cache, after: Cache, gone: set<string>,
                                       head: set<string>)
    requires forall x :: x in ids ==> Count(before, x) <= MAX_RETRY_COUNT
    requires forall x :: x in ids && x !in gone ==> Count(after, x) == Count(before, x) + if x in head then 1 else 0
    ensures Budget(Filter(ids, gone), after) + Members(ids, head) <= Budget(ids, before)
  {
    if ids != [] {
      BudgetFalls(ids[1..], before, after, gone, head);
    }
  }

  lemma {:induction false} PrefixMembers(ids: seq<string>, n: nat, head: set<string>)
    requires n <= |ids| && forall x :: x in ids[..n] ==> x in head
    ensures Members(ids, head) >= n
  {
    if n > 0 {
      assert ids[..n][0] == ids[0] && ids[1..][..n - 1] == ids[..n][1..];
      PrefixMembers(ids[1..], n - 1, head);
    }
  }

  /** Every committed batch lowers the budget by at least the number of its rows. */
  lemma BatchLowersBudget(w: World, attempts: Attempts)
    requires Inv(w)
    ensures Budget(PendingIds(CommitBatch(w, attempts).tables), CommitBatch(w, attempts).cache) + |Head(w.tables)|
         <= Budget(PendingIds(w.tables), w.cache)
  {
    var ids, head := PendingIds(w.tables), Elems(Head(w.tables));
    var gone := RemovedBy(w, attempts);
    BudgetFalls(ids, w.cache, CommitBatch(w, attempts).cache, gone, head);
    PrefixMembers(ids, |Head(w.tables)|, head);
  }

  lemma RemovedBy(w: World, attempts: Attempts) returns (gone: set<string>)
    requires Inv(w)
    ensures PendingIds(CommitBatch(w, attempts).tables) == Filter(PendingIds(w.tables), gone)
    ensures forall x :: x in PendingIds(w.tables) && x !in gone ==>
              Count(CommitBatch(w, attempts).cache, x)
              == Count(w.cache, x) + if x in Elems(Head(w.tables)) then 1 else 0
    ensures forall x :: x in PendingIds(w.tables) ==> Count(w.cache, x) <= MAX_RETRY_COUNT
  {
    var work := BatchWork(w.cache, Head(w.tables), attempts, Commits, MAX_RETRY_CACHE_SIZE);
    gone := Elems(work.succeeded) + Elems(work.poisoned);
    BatchEffect(w, attempts, Commits);
    forall x | x in PendingIds(w.tables) && x !in gone
      ensures Count(CommitBatch(w, attempts).cache, x)
              == Count(w.cache, x) + if x in Elems(Head(w.tables)) then 1 else 0
    {
      CommitVerdict(w, attempts, x);
    }
  }

  // ---------------------------------------------------------------------------
  // The bound of the drain is reached
  // ---------------------------------------------------------------------------

  /** Every pending row of the next batch has `age` recorded retries. */
  ghost predicate HeadAged(w: World, age: nat) {
    forall x :: x in Head(w.tables) ==> Count(w.cache, x) == age
  }

  ghost predicate AllRefused(ids: seq<string>, attempts: Attempts) {
    forall x :: x in ids ==> !Landed(attempts, x)
  }

  /** A refused row stays until it has MAX_RETRY_COUNT recorded retries; then it goes. */
  lemma RefusedRow(w: World, attempts: Attempts, age: nat, x: string)
    requires Inv(w) && HeadAged(w, age) && age <= MAX_RETRY_COUNT && AllRefused(PendingIds(w.tables), attempts)
    ensures x in PendingIds(CommitBatch(w, attempts).tables)
       <==> x in PendingIds(w.tables) && (x in Head(w.tables) ==> age < MAX_RETRY_COUNT)
  {
    CommitVerdict(w, attempts, x);
  }

  lemma {:induction false} FilterPrefix(s: seq<string>, n: nat, gone: set<string>)
    requires n <= |s| && forall i :: 0 <= i < |s| ==> (s[i] in gone <==> i < n)
    ensures Filter(s, gone) == s[n..]
  {
    if n == 0 {
      FilterKeeps(s, gone);
    } else {
      FilterPrefix(s[1..], n - 1, gone);
    }
  }

  lemma {:induction false} FilterKeeps(s: seq<string>, gone: set<string>)
    requires forall x :: x in s ==> x !in gone
    ensures Filter(s, gone) == s
  {
    if s != [] {
      FilterKeeps(s[1..], gone);
    }
  }

  /** While every row is refused, a batch ages its rows together, and the fourth takes all of them. */
  lemma RefusedBatch(w: World, attempts: Attempts, age: nat)
    requires Inv(w) && HeadAged(w, age) && age <= MAX_RETRY_COUNT && AllRefused(PendingIds(w.tables), attempts)
    ensures PendingIds(CommitBatch(w, attempts).tables)
         == if age < MAX_RETRY_COUNT then PendingIds(w.tables) else PendingIds(w.tables)[|Head(w.tables)|..]
  {
    var gone := RemovedBy(w, attempts);
    PendingIdsNoDup(w.tables);
    forall x | x in PendingIds(w.tables) ensures x in gone <==> x in Head(w.tables) && age == MAX_RETRY_COUNT {
      RefusedRow(w, attempts, age, x);
    }
    if age < MAX_RETRY_COUNT {
      FilterKeeps(PendingIds(w.tables), gone);
    } else {
      FilterHead(PendingIds(w.tables), |Head(w.tables)|, gone);
    }
  }

  lemma FilterHead(s: seq<string>, n: nat, gone: set<string>)
    requires NoDup(s) && n <= |s| && forall x :: x in s ==> (x in gone <==> x in s[..n])
    ensures Filter(s, gone) == s[n..]
  {
    forall i | 0 <= i < |s| ensures s[i] in gone <==> i < n {
      assert i < n ==> s[..n][i] == s[i];
    }
    FilterPrefix(s, n, gone);
  }

  lemma RefusedAges(w: World, attempts: Attempts, age: nat)
    requires Inv(w) && HeadAged(w, age) && age <= MAX_RETRY_COUNT && AllRefused(PendingIds(w.tables), attempts)
    ensures HeadAged(CommitBatch(w, attempts), if age < MAX_RETRY_COUNT then age + 1 else 0)
    ensures Inv(CommitBatch(w, attempts))
  {
    var v := CommitBatch(w, attempts);
    BatchKeepsInv(w, attempts, Commits);
    RefusedBatch(w, attempts, age);
    forall x | x in Head(v.tables) ensures Count(v.cache, x) == if age < MAX_RETRY_COUNT then age + 1 else 0 {
      CommitVerdict(w, attempts, x);
      assert x in PendingIds(v.tables);
    }
  }

  /** If every row is refused, fewer than (MAX_RETRY_COUNT + 1) * ceil(N / BATCH_SIZE) committed batches
      leave some of N rows without recorded retries unprocessed: the drain bound cannot be lowered. */
  lemma {:induction false} DrainBoundIsReached(w: World, answers: seq<Attempts>, age: nat)
    requires Inv(w) && HeadAged(w, age) && age <= MAX_RETRY_COUNT
    requires forall a :: a in answers ==> AllRefused(PendingIds(w.tables), a)
    requires |answers| + age < (MAX_RETRY_COUNT + 1) * BatchesOf(|PendingIds(w.tables)|)
    ensures PendingIds(CommitBatches(w, answers).tables) != []
    decreases |answers|
  {
    if answers != [] {
      RefusedAges(w, answers[0], age);
      StillRefused(w, answers[0], age, answers[1..]);
      BatchesLeft(w, answers[0], age);
      DrainBoundIsReached(CommitBatch(w, answers[0]), answers[1..], if age < MAX_RETRY_COUNT then age + 1 else 0);
    }
  }

  lemma StillRefused(w: World, attempts: Attempts, age: nat, rest: seq<Attempts>)
    requires Inv(w) && HeadAged(w, age) && age <= MAX_RETRY_COUNT && AllRefused(PendingIds(w.tables), attempts)
    requires forall a :: a in rest ==> AllRefused(PendingIds(w.tables), a)
    ensures forall a :: a in rest ==> AllRefused(PendingIds(CommitBatch(w, attempts).tables), a)
  {
    forall x | x in PendingIds(CommitBatch(w, attempts).tables) ensures x in PendingIds(w.tables) {
      RefusedRow(w, attempts, age, x);
    }
  }

  /** What a batch of refused rows takes off the number of batches to go: one. */
  lemma BatchesLeft(w: World, attempts: Attempts, age: nat)
    requires Inv(w) && HeadAged(w, age) && age <= MAX_RETRY_COUNT && AllRefused(PendingIds(w.tables), attempts)
    ensures var n, m := |PendingIds(w.tables)|, |PendingIds(CommitBatch(w, attempts).tables)|;
            BatchesOf(m) == if age < MAX_RETRY_COUNT || n == 0 then BatchesOf(n) else BatchesOf(n) - 1
  {
    RefusedBatch(w, attempts, age);
    ExactlyOneBatchFewer(|PendingIds(w.tables)|);
  }

  lemma ExactlyOneBatchFewer(n: nat)
    ensures n > 0 ==> BatchesOf(n - Min(BATCH_SIZE, n)) == BatchesOf(n) - 1
  {
  }

  /** A single row of the first batch that is always refused outlives MAX_RETRY_COUNT committed batches,
      whatever happens to the others. */
  lemma {:induction false} RefusalsRemoveNothing(w: World, answers: seq<Attempts>, x: string)
    requires Inv(w) && x in Head(w.tables) && Count(w.cache, x) + |answers| <= MAX_RETRY_COUNT
    requires forall a :: a in answers ==> !Landed(a, x)
    ensures x in PendingIds(CommitBatches(w, answers).tables)
    decreases |answers|
  {
    if answers == [] {
      assert x in PendingIds(w.tables);
    } else {
      CommitVerdict(w, answers[0], x);
      RefusalsRemoveNothing(CommitBatch(w, answers[0]), answers[1..], x);
    }
  }
}
