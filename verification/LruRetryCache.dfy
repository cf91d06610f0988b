/** The bounded retry cache of the audit mover, and its meaning over whole histories. */
module LruRetryCache {
  import opened Common

  /** An ordered dictionary: keys from least to most recently incremented, with their counts. */
  datatype Cache = Cache(order: seq<string>, counts: map<string, nat>)

  const EMPTY := Cache([], map[])

  ghost predicate Valid(c: Cache) {
    && NoDup(c.order)
    && (forall k :: k in c.order <==> k in c.counts)
    && (forall k :: k in c.counts ==> c.counts[k] >= 1)
  }

  function Count(c: Cache, key: string): nat {
    if key in c.counts then c.counts[key] else 0
  }

  function Cleared(c: Cache, key: string): Cache {
    Cache(Filter(c.order, {key}), c.counts - {key})
  }

  /** Drops the oldest entries until at most `max` remain. */
  function Evicted(c: Cache, max: nat): Cache
    decreases |c.order|
  {
    if |c.order| > max then Evicted(Cache(c.order[1..], c.counts - {c.order[0]}), max) else c
  }

  function Incremented(c: Cache, key: string, max: nat): Cache {
    if key in c.counts then
      Cache(Filter(c.order, {key}) + [key], c.counts[key := c.counts[key] + 1])
    else
      Evicted(Cache(c.order + [key], c.counts[key := 1]), max)
  }

  lemma {:induction false} FilterOne(s: seq<string>, key: string)
    requires NoDup(s)
    ensures |Filter(s, {key})| == if key in s then |s| - 1 else |s|
    ensures key !in s ==> Filter(s, {key}) == s
  {
    if s != [] {
      FilterOne(s[1..], key);
    }
  }

  lemma ClearedValid(c: Cache, key: string)
    requires Valid(c)
    ensures Valid(Cleared(c, key))
    ensures |Cleared(c, key).order| <= |c.order|
  {
    FilterNoDup(c.order, {key});
  }

  lemma AppendedValid(c: Cache, key: string)
    requires Valid(c) && key !in c.counts
    ensures Valid(Cache(c.order + [key], c.counts[key := 1]))
  {
  }

  lemma DroppedValid(c: Cache)
    requires Valid(c) && c.order != []
    ensures Valid(Cache(c.order[1..], c.counts - {c.order[0]}))
  {
    var d := Cache(c.order[1..], c.counts - {c.order[0]});
    forall k ensures k in d.order <==> k in d.counts {
      assert k in c.order <==> k == c.order[0] || k in c.order[1..];
    }
  }

  lemma MovedToEndValid(c: Cache, key: string)
    requires Valid(c) && key in c.counts
    ensures Valid(Incremented(c, key, 0))
    ensures |Filter(c.order, {key})| == |c.order| - 1
  {
    FilterNoDup(c.order, {key});
    FilterOne(c.order, key);
  }

  /** An increment evicts at most the oldest entry, and only to make room for a new key. */
  lemma IncrementedForm(c: Cache, key: string, max: nat)
    requires Valid(c) && |c.order| <= max && max >= 1 && key !in c.counts
    ensures Incremented(c, key, max) ==
            if |c.order| == max then Cache(c.order[1..] + [key], (c.counts - {c.order[0]})[key := 1])
            else Cache(c.order + [key], c.counts[key := 1])
  {
    if |c.order| == max {
      var full := Cache(c.order + [key], c.counts[key := 1]);
      var d := Cache(c.order[1..] + [key], (c.counts - {c.order[0]})[key := 1]);
      assert Cache(full.order[1..], full.counts - {full.order[0]}) == d;
      assert Evicted(d, max) == d;
    }
  }

  lemma IncrementedValid(c: Cache, key: string, max: nat)
    requires Valid(c) && |c.order| <= max && max >= 1
    ensures Valid(Incremented(c, key, max))
    ensures |Incremented(c, key, max).order| <= max
    ensures Count(Incremented(c, key, max), key) == Count(c, key) + 1
  {
    if key in c.counts {
      MovedToEndValid(c, key);
    } else {
      IncrementedForm(c, key, max);
      if |c.order| == max {
        DroppedValid(c);
        AppendedValid(Cache(c.order[1..], c.counts - {c.order[0]}), key);
      } else {
        AppendedValid(c, key);
      }
    }
  }

  // ---------------------------------------------------------------------------
  // The class the mover uses
  // ---------------------------------------------------------------------------

  class LRURetryCache {
    var order: seq<string>
    var counts: map<string, nat>
    const maxSize: nat

    function Model(): Cache
      reads this
    {
      Cache(order, counts)
    }

    ghost predicate Ok()
      reads this
    {
      Valid(Model()) && |order| <= maxSize && maxSize >= 1
    }

    constructor (maxSize: nat)
      requires maxSize >= 1
      ensures Ok() && Model() == EMPTY && this.maxSize == maxSize
    {
      order, counts := [], map[];
      this.maxSize := maxSize;
    }

    method Increment(key: string) returns (count: nat)
      requires Ok()
      modifies this
      ensures Ok()
      ensures Model() == Incremented(old(Model()), key, maxSize)
      ensures count == Count(old(Model()), key) + 1
    {
      IncrementedValid(Model(), key, maxSize);
      if key in counts {
        order := Filter(order, {key}) + [key];
        counts := counts[key := counts[key] + 1];
      } else {
        counts := counts[key := 1];
        order := order + [key];
        while |order| > maxSize
          invariant Evicted(Model(), maxSize) == Incremented(old(Model()), key, maxSize)
          decreases |order|
        {
          counts := counts - {order[0]};
          order := order[1..];
        }
      }
      count := counts[key];
    }

    method Get(key: string) returns (count: nat)
      ensures count == Count(Model(), key)
    {
      count := if key in counts then counts[key] else 0;
    }

    method Clear(key: string)
      requires Ok()
      modifies this
      ensures Ok() && Model() == Cleared(old(Model()), key)
    {
      ClearedValid(Model(), key);
      order := Filter(order, {key});
      counts := counts - {key};
    }

    method Reset()
      requires Ok()
      modifies this
      ensures Ok() && Model() == EMPTY
    {
      order, counts := [], map[];
    }
  }

  // ---------------------------------------------------------------------------
  // Histories
  // ---------------------------------------------------------------------------

  datatype Op = IncrementOf(key: string) | ClearOf(key: string) | ResetAll

  function Apply(c: Cache, op: Op, max: nat): Cache {
    match op
    case IncrementOf(k) => Incremented(c, k, max)
    case ClearOf(k) => Cleared(c, k)
    case ResetAll => EMPTY
  }

  /** The cache after a history of operations, oldest first. */
  function Run(ops: seq<Op>, max: nat): Cache {
    if ops == [] then EMPTY else Apply(Run(ops[..|ops| - 1], max), ops[|ops| - 1], max)
  }

  /** What the history says about one key: the other keys incremented since its last increment and
      not cleared again, or None when it is not tracked. No other key's recency is consulted. */
  ghost function Behind(ops: seq<Op>, k: string, max: nat): Option<set<string>> {
    if ops == [] then None else Moved(Behind(ops[..|ops| - 1], k, max), ops[|ops| - 1], k, max)
  }

  ghost function Moved(before: Option<set<string>>, op: Op, k: string, max: nat): Option<set<string>> {
    match op
    case ResetAll => None
    case ClearOf(x) =>
      if x == k || before.None? then None else Some(before.value - {x})
    case IncrementOf(x) =>
      if x == k then Some({})
      else if before.None? || |before.value + {x}| >= max then None
      else Some(before.value + {x})
  }

  /** The number of increments of `k` since the history last left it untracked. */
  ghost function Tally(ops: seq<Op>, k: string, max: nat): nat {
    if ops == [] || Behind(ops, k, max).None? then 0
    else Tally(ops[..|ops| - 1], k, max) + (if ops[|ops| - 1] == IncrementOf(k) then 1 else 0)
  }

  /** The keys after `k` in recency order. */
  ghost function Later(order: seq<string>, k: string): set<string> {
    if order == [] then {}
    else if order[0] == k then Elems(order[1..])
    else Later(order[1..], k)
  }

  lemma {:induction false} LaterAppend(order: seq<string>, k: string, x: string)
    requires k in order
    ensures Later(order + [x], k) == Later(order, k) + {x}
  {
    assert (order + [x])[1..] == order[1..] + [x];
    if order[0] != k {
      LaterAppend(order[1..], k, x);
    }
  }

  lemma {:induction false} LaterLast(order: seq<string>, k: string)
    requires k !in order
    ensures Later(order + [k], k) == {}
  {
    if order != [] {
      assert (order + [k])[1..] == order[1..] + [k];
      LaterLast(order[1..], k);
    }
  }

  lemma {:induction false} LaterFilter(order: seq<string>, k: string, x: string)
    requires k in order && x != k
    ensures Later(Filter(order, {x}), k) == Later(order, k) - {x}
  {
    if order[0] == k {
      assert Filter(order, {x}) == [k] + Filter(order[1..], {x});
    } else {
      LaterFilter(order[1..], k, x);
    }
  }

  lemma {:induction false} LaterSize(order: seq<string>, k: string)
    requires NoDup(order) && k in order
    ensures |Later(order, k)| <= |order| - 1
    ensures order[0] == k ==> |Later(order, k)| == |order| - 1
    ensures order[0] != k ==> |Later(order, k)| <= |order| - 2
  {
    if order[0] == k {
      NoDupElems(order[1..]);
    } else {
      LaterSize(order[1..], k);
    }
  }

  ghost predicate Tracks(c: Cache, ops: seq<Op>, k: string, max: nat) {
    && (k in c.counts <==> Behind(ops, k, max).Some?)
    && (k in c.counts ==> Behind(ops, k, max) == Some(Later(c.order, k)))
    && Count(c, k) == Tally(ops, k, max)
  }

  /** One more operation, with the recursive definitions unfolded once. */
  lemma OneMore(ops: seq<Op>, op: Op, k: string, max: nat)
    ensures Run(ops + [op], max) == Apply(Run(ops, max), op, max)
    ensures Behind(ops + [op], k, max) == Moved(Behind(ops, k, max), op, k, max)
    ensures Tally(ops + [op], k, max) ==
            if Behind(ops + [op], k, max).None? then 0
            else Tally(ops, k, max) + (if op == IncrementOf(k) then 1 else 0)
  {
    assert (ops + [op])[..|ops + [op]| - 1] == ops;
  }

  lemma IncrementSelfTracks(c: Cache, ops: seq<Op>, k: string, max: nat)
    requires Valid(c) && |c.order| <= max && max >= 1
    requires Tracks(c, ops, k, max)
    ensures Tracks(Incremented(c, k, max), ops + [IncrementOf(k)], k, max)
  {
    OneMore(ops, IncrementOf(k), k, max);
    IncrementedValid(c, k, max);
    if k !in c.counts { IncrementedForm(c, k, max); }
    if k in c.counts {
      LaterLast(Filter(c.order, {k}), k);
    } else if |c.order| == max {
      LaterLast(c.order[1..], k);
    } else {
      LaterLast(c.order, k);
    }
  }

  lemma LaterMoved(order: seq<string>, x: string, k: string)
    requires NoDup(order) && x in order && k in order && x != k
    ensures Later(Filter(order, {x}) + [x], k) == Later(order, k) + {x}
    ensures |Later(order, k) + {x}| < |order|
  {
    var rest := Filter(order, {x});
    FilterNoDup(order, {x});
    FilterOne(order, x);
    LaterFilter(order, k, x);
    LaterAppend(rest, k, x);
    LaterSize(rest + [x], k);
    assert Later(order, k) - {x} + {x} == Later(order, k) + {x};
  }

  lemma IncrementKnownTracks(c: Cache, ops: seq<Op>, x: string, k: string, max: nat)
    requires Valid(c) && |c.order| <= max && max >= 1
    requires Tracks(c, ops, k, max) && x != k && k in c.counts && x in c.counts
    ensures Tracks(Incremented(c, x, max), ops + [IncrementOf(x)], k, max)
  {
    OneMore(ops, IncrementOf(x), k, max);
    LaterMoved(c.order, x, k);
  }

  lemma IncrementNewTracks(c: Cache, ops: seq<Op>, x: string, k: string, max: nat)
    requires Valid(c) && |c.order| <= max && max >= 1
    requires Tracks(c, ops, k, max) && x != k && k in c.counts && x !in c.counts
    ensures Tracks(Incremented(c, x, max), ops + [IncrementOf(x)], k, max)
  {
    OneMore(ops, IncrementOf(x), k, max);
    IncrementedValid(c, x, max);
    IncrementedForm(c, x, max);
    LaterAppend(c.order, k, x);
    assert NoDup(c.order + [x]);
    LaterSize(c.order + [x], k);
    if |c.order| == max && c.order[0] != k {
      assert (c.order + [x])[1..] == c.order[1..] + [x];
    }
  }

  lemma StepTracks(c: Cache, ops: seq<Op>, op: Op, k: string, max: nat)
    requires Valid(c) && |c.order| <= max && max >= 1
    requires Tracks(c, ops, k, max)
    ensures Tracks(Apply(c, op, max), ops + [op], k, max)
  {
    OneMore(ops, op, k, max);
    match op {
      case IncrementOf(x) =>
        if x == k {
          IncrementSelfTracks(c, ops, k, max);
        } else if k !in c.counts {
          IncrementedValid(c, x, max);
          if x !in c.counts { IncrementedForm(c, x, max); }
        } else if x in c.counts {
          IncrementKnownTracks(c, ops, x, k, max);
        } else {
          IncrementNewTracks(c, ops, x, k, max);
        }
      case ClearOf(x) =>
        if k != x && k in c.counts { LaterFilter(c.order, k, x); }
      case ResetAll =>
    }
  }

  lemma {:induction false} RunTracks(ops: seq<Op>, k: string, max: nat)
    requires max >= 1
    ensures Valid(Run(ops, max)) && |Run(ops, max).order| <= max
    ensures Tracks(Run(ops, max), ops, k, max)
  {
    if ops != [] {
      var before, op := ops[..|ops| - 1], ops[|ops| - 1];
      var c := Run(before, max);
      RunTracks(before, k, max);
      assert ops == before + [op];
      OneMore(before, op, k, max);
      match op {
        case IncrementOf(x) => IncrementedValid(c, x, max);
        case ClearOf(x) => ClearedValid(c, x);
        case ResetAll =>
      }
      StepTracks(c, before, op, k, max);
    }
  }

  /** For every history: the cache stays within its bound, tracks exactly the keys behind which
      fewer than `max` others have gathered, and counts their increments since they were untracked. */
  lemma RunRefinesHistory(ops: seq<Op>, max: nat)
    requires max >= 1
    ensures |Run(ops, max).order| <= max
    ensures forall k :: k in Run(ops, max).counts <==> Behind(ops, k, max).Some?
    ensures forall k :: Count(Run(ops, max), k) == Tally(ops, k, max)
  {
    forall k
      ensures k in Run(ops, max).counts <==> Behind(ops, k, max).Some?
      ensures Count(Run(ops, max), k) == Tally(ops, k, max)
    {
      RunTracks(ops, k, max);
    }
    RunTracks(ops, "", max);
  }

  /** The distinct keys other than `k` that a stretch of history increments. */
  ghost function OthersIncremented(ops: seq<Op>, k: string): set<string> {
    set op | op in ops && op.IncrementOf? && op.key != k :: op.key
  }

  ghost predicate LeavesAlone(ops: seq<Op>, k: string) {
    forall op :: op in ops ==> op != IncrementOf(k) && op != ClearOf(k) && op != ResetAll
  }

  lemma {:induction false} BehindWithin(before: seq<Op>, ops: seq<Op>, k: string, max: nat)
    requires LeavesAlone(ops, k) && |OthersIncremented(ops, k)| < max
    ensures Behind(before + [IncrementOf(k)] + ops, k, max).Some?
    ensures Behind(before + [IncrementOf(k)] + ops, k, max).value <= OthersIncremented(ops, k)
  {
    if ops == [] {
      assert before + [IncrementOf(k)] + ops == before + [IncrementOf(k)];
      OneMore(before, IncrementOf(k), k, max);
    } else {
      var init, op := ops[..|ops| - 1], ops[|ops| - 1];
      var earlier := before + [IncrementOf(k)] + init;
      assert before + [IncrementOf(k)] + ops == earlier + [op];
      assert op in ops && forall o :: o in init ==> o in ops;
      SubsetSize(OthersIncremented(init, k), OthersIncremented(ops, k));
      BehindWithin(before, init, k, max);
      OneMore(earlier, op, k, max);
      if op.IncrementOf? {
        SubsetSize(Behind(earlier, k, max).value + {op.key}, OthersIncremented(ops, k));
      }
    }
  }

  lemma SubsetSize(a: set<string>, b: set<string>)
    requires a <= b
    ensures |a| <= |b|
  {
    assert b == a + (b - a);
  }

  /** A key that was incremented and then neither cleared nor reset is lost only after at least `max`
      other distinct keys have been incremented. */
  lemma EvictedOnlyAfterMaxOthers(before: seq<Op>, ops: seq<Op>, k: string, max: nat)
    requires max >= 1 && LeavesAlone(ops, k)
    requires Count(Run(before + [IncrementOf(k)] + ops, max), k) == 0
    ensures |OthersIncremented(ops, k)| >= max
  {
    RunTracks(before + [IncrementOf(k)] + ops, k, max);
    if |OthersIncremented(ops, k)| < max {
      BehindWithin(before, ops, k, max);
    }
  }
}
