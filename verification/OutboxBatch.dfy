/** What one batch does to the retry cache and to its two id lists. */
module OutboxBatch {
  import opened Common
  import opened LruRetryCache
  import opened OutboxProtocol

  /** Every tracked key and every row of the batch fits within `room`. */
  ghost predicate Roomy(c: Cache, ids: seq<string>, room: set<string>) {
    && Valid(c)
    && (forall k :: k in c.counts ==> k in room)
    && (forall k :: k in ids ==> k in room)
  }

  lemma RoomBounds(c: Cache, room: set<string>)
    requires Valid(c) && forall k :: k in c.counts ==> k in room
    ensures |c.order| <= |room|
    ensures forall x :: x in room && x !in c.counts ==> |c.order| < |room|
  {
    NoDupElems(c.order);
    SubsetSize(Elems(c.order), room);
    forall x | x in room && x !in c.counts ensures |c.order| < |room| {
      SubsetSize(Elems(c.order) + {x}, room);
    }
  }

  /** The retry count of `x` after a batch over `ids` that started with cache `c`. */
  function CountAfter(c: Cache, ids: seq<string>, attempts: Attempts, x: string): nat {
    if x !in ids then Count(c, x)
    else if Count(c, x) >= MAX_RETRY_COUNT || Landed(attempts, x) then 0
    else Count(c, x) + 1
  }

  ghost predicate Verdicts(c: Cache, ids: seq<string>, attempts: Attempts, w: Work) {
    && (forall x :: x in w.poisoned <==> x in ids && Count(c, x) >= MAX_RETRY_COUNT)
    && (forall x :: x in w.succeeded <==> x in ids && Count(c, x) < MAX_RETRY_COUNT && Landed(attempts, x))
    && (forall x :: Count(w.cache, x) == CountAfter(c, ids, attempts, x))
  }

  /** One row leaves the counts of all others alone, provided there is room in the cache. */
  lemma ProcessRowCounts(w: Work, id: string, landed: bool, max: nat, room: set<string>)
    requires Valid(w.cache) && (forall k :: k in w.cache.counts ==> k in room) && id in room && |room| <= max
    ensures var v := ProcessRow(w, id, landed, max);
            && Valid(v.cache) && (forall k :: k in v.cache.counts ==> k in room)
            && (forall x :: x != id ==> Count(v.cache, x) == Count(w.cache, x))
            && Count(v.cache, id) ==
               (if Count(w.cache, id) >= MAX_RETRY_COUNT || landed then 0 else Count(w.cache, id) + 1)
    ensures forall other :: other >= |room| ==> ProcessRow(w, id, landed, max) == ProcessRow(w, id, landed, other)
  {
    RoomBounds(w.cache, room);
    if Count(w.cache, id) >= MAX_RETRY_COUNT || landed {
      ClearedValid(w.cache, id);
    } else {
      IncrementedValid(w.cache, id, max);
      if id !in w.cache.counts {
        IncrementedForm(w.cache, id, max);
        forall other | other >= |room| ensures Incremented(w.cache, id, max) == Incremented(w.cache, id, other) {
          IncrementedForm(w.cache, id, other);
        }
      }
    }
  }

  lemma VerdictsExtend(c: Cache, ids: seq<string>, id: string, attempts: Attempts, w: Work, v: Work)
    requires Verdicts(c, ids, attempts, w) && id !in ids
    requires forall x :: x != id ==> Count(v.cache, x) == Count(w.cache, x)
    requires Count(v.cache, id) ==
             if Count(w.cache, id) >= MAX_RETRY_COUNT || Landed(attempts, id) then 0 else Count(w.cache, id) + 1
    requires v.poisoned == w.poisoned + (if Count(w.cache, id) >= MAX_RETRY_COUNT then [id] else [])
    requires v.succeeded ==
             w.succeeded + (if Count(w.cache, id) < MAX_RETRY_COUNT && Landed(attempts, id) then [id] else [])
    ensures Verdicts(c, ids + [id], attempts, v)
  {
    forall x ensures Count(v.cache, x) == CountAfter(c, ids + [id], attempts, x) {
      assert Count(w.cache, x) == CountAfter(c, ids, attempts, x);
    }
  }

  /** With room for every key involved, a batch poisons exactly the rows with MAX_RETRY_COUNT recorded
      failures, lands exactly the others whose insert worked, counts the rest, and forgets nothing. */
  lemma {:induction false} BatchVerdicts(c: Cache, ids: seq<string>, attempts: Attempts, max: nat, room: set<string>)
    requires Roomy(c, ids, room) && NoDup(ids) && |room| <= max
    ensures Verdicts(c, ids, attempts, ProcessRows(Start(c), ids, attempts, max))
    ensures forall x :: x in ProcessRows(Start(c), ids, attempts, max).succeeded <==>
                        && x in ids && Count(c, x) < MAX_RETRY_COUNT && x in attempts
                        && (attempts[x] == Inserted || attempts[x] == NoPartition(true, true))
    ensures Valid(ProcessRows(Start(c), ids, attempts, max).cache)
    ensures forall k :: k in ProcessRows(Start(c), ids, attempts, max).cache.counts ==> k in room
  {
    if ids != [] {
      var n := |ids| - 1;
      var init := ids[..n];
      var w := ProcessRows(Start(c), init, attempts, max);
      BatchVerdicts(c, init, attempts, max, room);
      ProcessRowCounts(w, ids[n], Landed(attempts, ids[n]), max, room);
      VerdictsExtend(c, init, ids[n], attempts, w, ProcessRows(Start(c), ids, attempts, max));
      assert ids == init + [ids[n]];
    }
    LandsIff(attempts);
  }

  lemma LandsIff(attempts: Attempts)
    ensures forall x :: Landed(attempts, x) <==>
                        x in attempts && (attempts[x] == Inserted || attempts[x] == NoPartition(true, true))
  {
  }

  /** The bound of the cache does not show: any two bounds with enough room give the same batch. */
  lemma {:induction false} BoundInvisible(c: Cache, ids: seq<string>, attempts: Attempts, a: nat, b: nat,
                                          room: set<string>)
    requires Roomy(c, ids, room) && NoDup(ids) && |room| <= a && |room| <= b
    ensures ProcessRows(Start(c), ids, attempts, a) == ProcessRows(Start(c), ids, attempts, b)
  {
    if ids != [] {
      var n := |ids| - 1;
      BoundInvisible(c, ids[..n], attempts, a, b, room);
      BatchVerdicts(c, ids[..n], attempts, a, room);
      ProcessRowCounts(ProcessRows(Start(c), ids[..n], attempts, a), ids[n], Landed(attempts, ids[n]), a, room);
    }
  }

  /** Whatever the cache forgets, the id lists are disjoint parts of the batch without duplicates,
      and the pending inserts are those of the succeeded rows. */
  lemma {:induction false} ListsWithinBatch(c: Cache, ids: seq<string>, attempts: Attempts, max: nat)
    requires NoDup(ids)
    ensures var w := ProcessRows(Start(c), ids, attempts, max);
            && NoDup(w.succeeded) && NoDup(w.poisoned)
            && (forall x :: x in w.succeeded ==> x in ids && x !in w.poisoned)
            && (forall x :: x in w.poisoned ==> x in ids)
            && w.inserts == w.succeeded
  {
    if ids != [] {
      var n := |ids| - 1;
      ListsWithinBatch(c, ids[..n], attempts, max);
      assert ids[n] !in ids[..n];
    }
  }
}
