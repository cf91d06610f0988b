/** How many requests the interleaved fallback lets into one window, on a clock, with a key that expires. */
module FallbackRate {
  import opened Common
  import opened FallbackWindow

  /** The system on a clock, with the time at which its key expires if one is set, watched for the window that
      ends at some time. Of the entries with a time in it, `added` have been added, and `lost` went with an
      expiring key before the window ended; `gaveUp` clients gave up between adding one and setting the
      expiry. */
  datatype Watched = Watched(sys: System, clock: int, expireAt: Option<int>, added: nat, lost: nat, gaveUp: nat)

  /** An action at some time. */
  datatype Moment = Moment(now: int, action: Action)

  /** The expiry that an admission sets: the window and a minute. */
  function ExpiryFrom(now: int, windowSeconds: int): int {
    now + (windowSeconds + 60) * 1000
  }

  predicate InWindow(x: int, windowSeconds: int, end: int) {
    end - windowSeconds * 1000 < x <= end
  }

  function Within(entries: map<string, int>, windowSeconds: int, end: int): map<string, int> {
    map m | m in entries && InWindow(entries[m], windowSeconds, end) :: entries[m]
  }

  /** Time does not run backwards, a check takes its time when it starts, a usage query prunes by a time it
      took then or before, members are fresh, and the key expires when its time has come. */
  predicate Timely(x: Watched, m: Moment, windowSeconds: int) {
    && m.now >= x.clock && Enabled(x.sys, m.action)
    && (m.action.Start? ==> m.action.now == m.now)
    && (m.action.UsagePrune? ==> m.action.windowStart + windowSeconds * 1000 <= m.now)
    && (m.action.Add? ==> m.action.member !in x.sys.entries)
    && (m.action.KeyExpires? ==> x.expireAt.Some? && x.expireAt.value <= m.now)
  }

  /** A client that has added an entry of the window and not yet set the expiry. */
  predicate Stalls(c: Client, windowSeconds: int, end: int) {
    c.Added? && InWindow(c.now, windowSeconds, end)
  }

  /** A key without entries does not exist, and has no expiry. */
  function ExpiryAfter(x: Watched, sys: System, m: Moment, windowSeconds: int): Option<int> {
    if sys.entries == map[] then None
    else if m.action.Expire? then Some(ExpiryFrom(m.now, windowSeconds))
    else x.expireAt
  }

  function Happens(x: Watched, m: Moment, windowSeconds: int, limit: int, end: int): Watched
    requires Timely(x, m, windowSeconds)
  {
    var a, sys := m.action, Step(x.sys, m.action, windowSeconds, limit);
    Watched(sys, m.now, ExpiryAfter(x, sys, m, windowSeconds),
            x.added + (if a.Add? && InWindow(x.sys.clients[a.client].now, windowSeconds, end) then 1 else 0),
            x.lost + (if a.KeyExpires? && m.now <= end then |Within(x.sys.entries, windowSeconds, end)| else 0),
            x.gaveUp + (if a.GiveUp? && Stalls(x.sys.clients[a.client], windowSeconds, end) then 1 else 0))
  }

  ghost predicate ReachesInTime(x: Watched, moments: seq<Moment>, y: Watched, windowSeconds: int, limit: int, end: int)
    decreases |moments|
  {
    if moments == [] then x == y
    else
      && Timely(x, moments[0], windowSeconds)
      && ReachesInTime(Happens(x, moments[0], windowSeconds, limit, end), moments[1..], y, windowSeconds, limit, end)
  }

  /** `k` clients, none of them in a check, and no key. */
  function InitiallyWatched(k: nat, start: int): Watched {
    Watched(Initial(k), start, None, 0, 0, 0)
  }

  // ---------------------------------------------------------------------------
  // Counting clients
  // ---------------------------------------------------------------------------

  /** A check that began by `end` and may still add an entry. */
  predicate MayAdd(c: Client, end: int) {
    (c.Started? || c.Pruned? || c.Granted?) && c.now <= end
  }

  function MayAdds(clients: seq<Client>, end: int): nat {
    if clients == [] then 0 else (if MayAdd(clients[0], end) then 1 else 0) + MayAdds(clients[1..], end)
  }

  function Stalled(clients: seq<Client>, windowSeconds: int, end: int): nat {
    if clients == [] then 0
    else (if Stalls(clients[0], windowSeconds, end) then 1 else 0) + Stalled(clients[1..], windowSeconds, end)
  }

  lemma {:induction false} MayAddsUpdate(clients: seq<Client>, c: nat, v: Client, end: int)
    requires c < |clients|
    ensures MayAdds(clients[c := v], end)
         == MayAdds(clients, end) - (if MayAdd(clients[c], end) then 1 else 0) + (if MayAdd(v, end) then 1 else 0)
  {
    if c == 0 {
      assert clients[c := v][1..] == clients[1..];
    } else {
      assert clients[c := v][1..] == clients[1..][c - 1 := v];
      MayAddsUpdate(clients[1..], c - 1, v, end);
    }
  }

  lemma {:induction false} StalledUpdate(clients: seq<Client>, c: nat, v: Client, windowSeconds: int, end: int)
    requires c < |clients|
    ensures Stalled(clients[c := v], windowSeconds, end)
         == Stalled(clients, windowSeconds, end) - (if Stalls(clients[c], windowSeconds, end) then 1 else 0)
            + (if Stalls(v, windowSeconds, end) then 1 else 0)
  {
    if c == 0 {
      assert clients[c := v][1..] == clients[1..];
    } else {
      assert clients[c := v][1..] == clients[1..][c - 1 := v];
      StalledUpdate(clients[1..], c - 1, v, windowSeconds, end);
    }
  }

  lemma {:induction false} CountsBound(clients: seq<Client>, windowSeconds: int, end: int)
    ensures MayAdds(clients, end) <= |clients| && Stalled(clients, windowSeconds, end) <= |clients|
  {
    if clients != [] {
      CountsBound(clients[1..], windowSeconds, end);
    }
  }

  // ---------------------------------------------------------------------------
  // Counting entries
  // ---------------------------------------------------------------------------

  lemma WithinSize(entries: map<string, int>, windowSeconds: int, end: int)
    ensures |Within(entries, windowSeconds, end)| <= |entries|
  {
    var kept := Within(entries, windowSeconds, end).Keys;
    assert kept <= entries.Keys;
    assert entries.Keys == kept + (entries.Keys - kept);
  }

  lemma WithinPruned(entries: map<string, int>, windowStart: int, windowSeconds: int, end: int)
    ensures |Within(After(entries, windowStart), windowSeconds, end)| <= |Within(entries, windowSeconds, end)|
    ensures windowStart <= end - windowSeconds * 1000 ==>
              Within(After(entries, windowStart), windowSeconds, end) == Within(entries, windowSeconds, end)
  {
    assert Within(After(entries, windowStart), windowSeconds, end)
        == After(Within(entries, windowSeconds, end), windowStart);
    AfterSize(Within(entries, windowSeconds, end), windowStart);
  }

  lemma WithinAdded(entries: map<string, int>, member: string, x: int, windowSeconds: int, end: int)
    requires member !in entries
    ensures |Within(entries[member := x], windowSeconds, end)|
         == |Within(entries, windowSeconds, end)| + if InWindow(x, windowSeconds, end) then 1 else 0
  {
    var before, after := Within(entries, windowSeconds, end), Within(entries[member := x], windowSeconds, end);
    assert after == if InWindow(x, windowSeconds, end) then before[member := x] else before;
  }

  lemma NoneWithin(entries: map<string, int>, windowSeconds: int, end: int)
    requires forall m :: m in entries ==> !InWindow(entries[m], windowSeconds, end)
    ensures |Within(entries, windowSeconds, end)| == 0
  {
    assert Within(entries, windowSeconds, end) == map[];
  }

  // ---------------------------------------------------------------------------
  // Time
  // ---------------------------------------------------------------------------

  /** No entry and no check is from the future. */
  ghost predicate OnTime(x: Watched) {
    && (forall i :: 0 <= i < |x.sys.clients| && !x.sys.clients[i].Away? ==> x.sys.clients[i].now <= x.clock)
    && (forall m :: m in x.sys.entries ==> x.sys.entries[m] <= x.clock)
  }

  lemma StepKeepsOnTime(x: Watched, m: Moment, windowSeconds: int, limit: int, end: int)
    requires OnTime(x) && Timely(x, m, windowSeconds)
    ensures OnTime(Happens(x, m, windowSeconds, limit, end))
  {
  }

  // ---------------------------------------------------------------------------
  // What an expiring key can take
  // ---------------------------------------------------------------------------

  predicate ExpiresBy(x: Watched, end: int) {
    x.expireAt.Some? && x.expireAt.value <= end
  }

  /** A key that can expire before the window ends holds only entries of the window whose clients stall or gave
      up before setting the expiry; and after a loss it can no longer expire before the window ends. */
  ghost predicate LossInv(x: Watched, windowSeconds: int, end: int) {
    && OnTime(x)
    && (ExpiresBy(x, end) ==>
          |Within(x.sys.entries, windowSeconds, end)| <= Stalled(x.sys.clients, windowSeconds, end) + x.gaveUp)
    && (x.lost > 0 ==> x.clock > end - windowSeconds * 1000 && !ExpiresBy(x, end))
    && x.lost <= |x.sys.clients| + x.gaveUp
  }

  lemma ExpireKeepsLoss(x: Watched, m: Moment, windowSeconds: int, limit: int, end: int)
    requires LossInv(x, windowSeconds, end) && Timely(x, m, windowSeconds) && m.action.Expire?
    ensures LossInv(Happens(x, m, windowSeconds, limit, end), windowSeconds, end)
  {
    var y := Happens(x, m, windowSeconds, limit, end);
    StepKeepsOnTime(x, m, windowSeconds, limit, end);
    if ExpiresBy(y, end) {
      NoneWithin(y.sys.entries, windowSeconds, end);
    }
  }

  lemma AddKeepsLoss(x: Watched, m: Moment, windowSeconds: int, limit: int, end: int)
    requires LossInv(x, windowSeconds, end) && Timely(x, m, windowSeconds) && m.action.Add?
    ensures LossInv(Happens(x, m, windowSeconds, limit, end), windowSeconds, end)
  {
    var c, y := m.action.client, Happens(x, m, windowSeconds, limit, end);
    StepKeepsOnTime(x, m, windowSeconds, limit, end);
    StalledUpdate(x.sys.clients, c, y.sys.clients[c], windowSeconds, end);
    WithinAdded(x.sys.entries, m.action.member, x.sys.clients[c].now, windowSeconds, end);
  }

  lemma ClientKeepsLoss(x: Watched, m: Moment, windowSeconds: int, limit: int, end: int)
    requires LossInv(x, windowSeconds, end) && Timely(x, m, windowSeconds)
    requires m.action.Start? || m.action.Prune? || m.action.CountStep? || m.action.GiveUp?
    ensures LossInv(Happens(x, m, windowSeconds, limit, end), windowSeconds, end)
  {
    var c, y := m.action.client, Happens(x, m, windowSeconds, limit, end);
    StepKeepsOnTime(x, m, windowSeconds, limit, end);
    StalledUpdate(x.sys.clients, c, y.sys.clients[c], windowSeconds, end);
    if m.action.Prune? {
      WithinPruned(x.sys.entries, x.sys.clients[c].now - windowSeconds * 1000, windowSeconds, end);
    }
  }

  lemma OutsideKeepsLoss(x: Watched, m: Moment, windowSeconds: int, limit: int, end: int)
    requires LossInv(x, windowSeconds, end) && Timely(x, m, windowSeconds)
    requires m.action.UsagePrune? || m.action.KeyExpires?
    ensures LossInv(Happens(x, m, windowSeconds, limit, end), windowSeconds, end)
  {
    StepKeepsOnTime(x, m, windowSeconds, limit, end);
    CountsBound(x.sys.clients, windowSeconds, end);
    if m.action.UsagePrune? {
      WithinPruned(x.sys.entries, m.action.windowStart, windowSeconds, end);
    } else if x.clock <= end - windowSeconds * 1000 {
      NoneWithin(x.sys.entries, windowSeconds, end);
    }
  }

  lemma StepKeepsLoss(x: Watched, m: Moment, windowSeconds: int, limit: int, end: int)
    requires LossInv(x, windowSeconds, end) && Timely(x, m, windowSeconds)
    ensures LossInv(Happens(x, m, windowSeconds, limit, end), windowSeconds, end)
  {
    match m.action {
      case Expire(_) => ExpireKeepsLoss(x, m, windowSeconds, limit, end);
      case Add(_, _) => AddKeepsLoss(x, m, windowSeconds, limit, end);
      case UsagePrune(_) => OutsideKeepsLoss(x, m, windowSeconds, limit, end);
      case KeyExpires => OutsideKeepsLoss(x, m, windowSeconds, limit, end);
      case _ => ClientKeepsLoss(x, m, windowSeconds, limit, end);
    }
  }

  // ---------------------------------------------------------------------------
  // The bound
  // ---------------------------------------------------------------------------

  /** Until the window ends nothing of it is pruned; after that, only checks that began by then can add to it. */
  ghost predicate RateInv(x: Watched, windowSeconds: int, limit: int, end: int) {
    && Inv(x.sys, limit) && OnTime(x)
    && (x.clock <= end ==> x.added == |Within(x.sys.entries, windowSeconds, end)| + x.lost)
    && x.added + MayAdds(x.sys.clients, end) <= limit + 2 * |x.sys.clients| - 1 + x.lost
  }

  lemma BoundUntilEnd(x: Watched, windowSeconds: int, limit: int, end: int)
    requires Inv(x.sys, limit) && x.added == |Within(x.sys.entries, windowSeconds, end)| + x.lost
    ensures x.added + MayAdds(x.sys.clients, end) <= limit + 2 * |x.sys.clients| - 1 + x.lost
  {
    WithinSize(x.sys.entries, windowSeconds, end);
    CountsBound(x.sys.clients, windowSeconds, end);
  }

  lemma ClientStepKeepsRate(x: Watched, m: Moment, windowSeconds: int, limit: int, end: int)
    requires RateInv(x, windowSeconds, limit, end) && Timely(x, m, windowSeconds)
    requires m.action.Start? || m.action.Prune? || m.action.CountStep? || m.action.Expire? || m.action.GiveUp?
    ensures RateInv(Happens(x, m, windowSeconds, limit, end), windowSeconds, limit, end)
  {
    var c, y := m.action.client, Happens(x, m, windowSeconds, limit, end);
    StepKeepsInv(x.sys, m.action, windowSeconds, limit);
    StepKeepsOnTime(x, m, windowSeconds, limit, end);
    MayAddsUpdate(x.sys.clients, c, y.sys.clients[c], end);
    if m.action.Prune? {
      WithinPruned(x.sys.entries, x.sys.clients[c].now - windowSeconds * 1000, windowSeconds, end);
    }
    if y.clock <= end {
      BoundUntilEnd(y, windowSeconds, limit, end);
    }
  }

  lemma AddKeepsRate(x: Watched, m: Moment, windowSeconds: int, limit: int, end: int)
    requires RateInv(x, windowSeconds, limit, end) && Timely(x, m, windowSeconds) && m.action.Add?
    ensures RateInv(Happens(x, m, windowSeconds, limit, end), windowSeconds, limit, end)
  {
    var c, y := m.action.client, Happens(x, m, windowSeconds, limit, end);
    StepKeepsInv(x.sys, m.action, windowSeconds, limit);
    StepKeepsOnTime(x, m, windowSeconds, limit, end);
    MayAddsUpdate(x.sys.clients, c, y.sys.clients[c], end);
    WithinAdded(x.sys.entries, m.action.member, x.sys.clients[c].now, windowSeconds, end);
  }

  lemma OutsideKeepsRate(x: Watched, m: Moment, windowSeconds: int, limit: int, end: int)
    requires RateInv(x, windowSeconds, limit, end) && Timely(x, m, windowSeconds)
    requires m.action.UsagePrune? || m.action.KeyExpires?
    ensures RateInv(Happens(x, m, windowSeconds, limit, end), windowSeconds, limit, end)
  {
    StepKeepsInv(x.sys, m.action, windowSeconds, limit);
    StepKeepsOnTime(x, m, windowSeconds, limit, end);
    if m.action.UsagePrune? {
      WithinPruned(x.sys.entries, m.action.windowStart, windowSeconds, end);
    } else {
      NoneWithin(map[], windowSeconds, end);
    }
  }

  lemma StepKeepsRate(x: Watched, m: Moment, windowSeconds: int, limit: int, end: int)
    requires RateInv(x, windowSeconds, limit, end) && Timely(x, m, windowSeconds)
    ensures RateInv(Happens(x, m, windowSeconds, limit, end), windowSeconds, limit, end)
  {
    match m.action {
      case Add(_, _) => AddKeepsRate(x, m, windowSeconds, limit, end);
      case UsagePrune(_) => OutsideKeepsRate(x, m, windowSeconds, limit, end);
      case KeyExpires => OutsideKeepsRate(x, m, windowSeconds, limit, end);
      case _ => ClientStepKeepsRate(x, m, windowSeconds, limit, end);
    }
  }

  lemma {:induction false} ReachableRate(x: Watched, moments: seq<Moment>, y: Watched, windowSeconds: int,
                                         limit: int, end: int)
    requires RateInv(x, windowSeconds, limit, end) && LossInv(x, windowSeconds, end)
    requires ReachesInTime(x, moments, y, windowSeconds, limit, end)
    ensures RateInv(y, windowSeconds, limit, end) && LossInv(y, windowSeconds, end)
    ensures |y.sys.clients| == |x.sys.clients|
    decreases |moments|
  {
    if moments != [] {
      StepKeepsRate(x, moments[0], windowSeconds, limit, end);
      StepKeepsLoss(x, moments[0], windowSeconds, limit, end);
      ReachableRate(Happens(x, moments[0], windowSeconds, limit, end), moments[1..], y, windowSeconds, limit, end);
    }
  }

  /** With at most `k` checks in flight, a clock that does not run backwards, and any usage queries in between,
      the fallback adds at most limit + 2k - 1 entries with a time in any window, and one more for each that
      went with an expiring key before the window ended; at most limit + k - 1 and those as long as it has not
      ended. A key can only take as many as `k` and the clients that gave up before they set the expiry. */
  lemma RateBound(k: nat, start: int, moments: seq<Moment>, y: Watched, windowSeconds: int, limit: int, end: int)
    requires limit >= 1 && ReachesInTime(InitiallyWatched(k, start), moments, y, windowSeconds, limit, end)
    ensures y.added <= limit + 2 * k - 1 + y.lost
    ensures y.clock <= end ==> y.added <= limit + k - 1 + y.lost
    ensures y.lost <= k + y.gaveUp
  {
    var x := InitiallyWatched(k, start);
    AwayGrantsNothing(x.sys.clients);
    CountsBound(x.sys.clients, windowSeconds, end);
    NoneWithin(map[], windowSeconds, end);
    ReachableRate(x, moments, y, windowSeconds, limit, end);
    WithinSize(y.sys.entries, windowSeconds, end);
  }

  // ---------------------------------------------------------------------------
  // The bound is reached
  // ---------------------------------------------------------------------------

  ghost predicate CanReachInTime(x: Watched, y: Watched, windowSeconds: int, limit: int, end: int) {
    exists moments :: ReachesInTime(x, moments, y, windowSeconds, limit, end)
  }

  lemma {:induction false} TimedJoin(x: Watched, a: seq<Moment>, y: Watched, m: Moment, windowSeconds: int,
                                     limit: int, end: int)
    requires ReachesInTime(x, a, y, windowSeconds, limit, end) && Timely(y, m, windowSeconds)
    ensures ReachesInTime(x, a + [m], Happens(y, m, windowSeconds, limit, end), windowSeconds, limit, end)
    decreases |a|
  {
    if a == [] {
      assert a + [m] == [m] && [m][1..] == [];
    } else {
      assert (a + [m])[0] == a[0] && (a + [m])[1..] == a[1..] + [m];
      TimedJoin(Happens(x, a[0], windowSeconds, limit, end), a[1..], y, m, windowSeconds, limit, end);
    }
  }

  lemma ThenInTime(from: Watched, x: Watched, m: Moment, windowSeconds: int, limit: int, end: int)
    requires CanReachInTime(from, x, windowSeconds, limit, end) && Timely(x, m, windowSeconds)
    ensures CanReachInTime(from, Happens(x, m, windowSeconds, limit, end), windowSeconds, limit, end)
  {
    var moments :| ReachesInTime(from, moments, x, windowSeconds, limit, end);
    TimedJoin(from, moments, x, m, windowSeconds, limit, end);
  }

  /** The stages of a check that took the time 0. */
  function Stage(j: nat): Client {
    if j == 0 then Away else if j == 1 then Started(0) else if j == 2 then Pruned(0)
    else if j == 3 then Granted(0) else Added(0)
  }

  function NextStage(j: nat): nat {
    if j < 4 then j + 1 else 0
  }

  /** What takes client `c` out of stage `j`. */
  function Act(j: nat, c: nat, member: string): Action {
    if j == 0 then Start(c, 0) else if j == 1 then Prune(c) else if j == 2 then CountStep(c)
    else if j == 3 then Add(c, member) else Expire(c)
  }

  lemma PrunesNothing(entries: map<string, int>, windowSeconds: int)
    requires Uniform(entries) && windowSeconds >= 1
    ensures After(entries, -windowSeconds * 1000) == entries
  {
  }

  /** What the next action of a client does, while there is room in the set. */
  lemma ActEffect(x: Watched, c: nat, j: nat, now: int, windowSeconds: int, limit: int)
    requires c < |x.sys.clients| && x.sys.clients[c] == Stage(j) && Uniform(x.sys.entries) && j <= 4
    requires windowSeconds >= 1 && x.clock <= now && (j == 0 ==> now == 0) && (j == 2 ==> |x.sys.entries| < limit)
    ensures Timely(x, Moment(now, Act(j, c, Name(|x.sys.entries|))), windowSeconds)
    ensures Step(x.sys, Act(j, c, Name(|x.sys.entries|)), windowSeconds, limit)
         == System(if j == 3 then x.sys.entries[Name(|x.sys.entries|) := 0] else x.sys.entries,
                   x.sys.clients[c := Stage(NextStage(j))])
  {
    PrunesNothing(x.sys.entries, windowSeconds);
    assert Name(|x.sys.entries|) !in x.sys.entries;
  }

  /** One client goes on to its next stage. */
  lemma Advance(from: Watched, x: Watched, c: nat, j: nat, now: int, windowSeconds: int, limit: int)
      returns (y: Watched)
    requires CanReachInTime(from, x, windowSeconds, limit, 0) && windowSeconds >= 1 && j <= 4
    requires c < |x.sys.clients| && x.sys.clients[c] == Stage(j) && Uniform(x.sys.entries)
    requires x.clock <= now && (j == 0 ==> now == 0) && (j == 2 ==> |x.sys.entries| < limit)
    ensures CanReachInTime(from, y, windowSeconds, limit, 0) && Uniform(y.sys.entries)
    ensures y.sys.clients == x.sys.clients[c := Stage(NextStage(j))]
    ensures var more := if j == 3 then 1 else 0;
            |y.sys.entries| == |x.sys.entries| + more && y.added == x.added + more
    ensures y.clock == now && y.lost == x.lost
  {
    var m := Moment(now, Act(j, c, Name(|x.sys.entries|)));
    ActEffect(x, c, j, now, windowSeconds, limit);
    ThenInTime(from, x, m, windowSeconds, limit, 0);
    y := Happens(x, m, windowSeconds, limit, 0);
    AddUniform(x.sys.entries);
  }

  ghost predicate AllAt(clients: seq<Client>, j: nat) {
    forall i :: 0 <= i < |clients| ==> clients[i] == Stage(j)
  }

  /** The first `n` clients, one after the other, go on to their next stage. */
  lemma {:induction false} Sweep(from: Watched, x: Watched, n: nat, j: nat, now: int, windowSeconds: int, limit: int)
      returns (y: Watched)
    requires CanReachInTime(from, x, windowSeconds, limit, 0) && windowSeconds >= 1 && j <= 4
    requires n <= |x.sys.clients| && AllAt(x.sys.clients, j) && Uniform(x.sys.entries)
    requires x.clock == now && (j == 0 ==> now == 0) && (j == 2 ==> |x.sys.entries| < limit)
    ensures CanReachInTime(from, y, windowSeconds, limit, 0) && Uniform(y.sys.entries)
    ensures |y.sys.clients| == |x.sys.clients|
    ensures forall i :: 0 <= i < |y.sys.clients| ==> y.sys.clients[i] == Stage(if i < n then NextStage(j) else j)
    ensures var more := if j == 3 then n else 0;
            |y.sys.entries| == |x.sys.entries| + more && y.added == x.added + more
    ensures y.clock == now && y.lost == x.lost
  {
    if n == 0 {
      y := x;
    } else {
      var z := Sweep(from, x, n - 1, j, now, windowSeconds, limit);
      y := Advance(from, z, n - 1, j, now, windowSeconds, limit);
    }
  }

  lemma SweepAll(from: Watched, x: Watched, j: nat, now: int, windowSeconds: int, limit: int) returns (y: Watched)
    requires CanReachInTime(from, x, windowSeconds, limit, 0) && windowSeconds >= 1 && j <= 4
    requires AllAt(x.sys.clients, j) && Uniform(x.sys.entries)
    requires x.clock == now && (j == 0 ==> now == 0) && (j == 2 ==> |x.sys.entries| < limit)
    ensures CanReachInTime(from, y, windowSeconds, limit, 0) && Uniform(y.sys.entries)
    ensures AllAt(y.sys.clients, NextStage(j)) && |y.sys.clients| == |x.sys.clients|
    ensures var more := if j == 3 then |x.sys.clients| else 0;
            |y.sys.entries| == |x.sys.entries| + more && y.added == x.added + more
    ensures y.clock == now && y.lost == x.lost
  {
    y := Sweep(from, x, |x.sys.clients|, j, now, windowSeconds, limit);
  }

  /** All clients check at once, up to the point where each has added its entry. */
  lemma AddTogether(from: Watched, x: Watched, now: int, windowSeconds: int, limit: int) returns (y: Watched)
    requires CanReachInTime(from, x, windowSeconds, limit, 0) && windowSeconds >= 1
    requires AllAt(x.sys.clients, 1) && Uniform(x.sys.entries) && |x.sys.entries| < limit && x.clock == now
    ensures CanReachInTime(from, y, windowSeconds, limit, 0) && Uniform(y.sys.entries)
    ensures AllAt(y.sys.clients, 4) && |y.sys.clients| == |x.sys.clients|
    ensures y.added == x.added + |x.sys.clients| && y.clock == now && y.lost == x.lost
  {
    var pruned := SweepAll(from, x, 1, now, windowSeconds, limit);
    var granted := SweepAll(from, pruned, 2, now, windowSeconds, limit);
    y := SweepAll(from, granted, 3, now, windowSeconds, limit);
  }

  /** One whole check of the first client. */
  lemma OneCheck(from: Watched, x: Watched, windowSeconds: int, limit: int) returns (y: Watched)
    requires CanReachInTime(from, x, windowSeconds, limit, 0) && windowSeconds >= 1 && |x.sys.clients| >= 1
    requires x.sys.clients[0] == Stage(0) && Uniform(x.sys.entries) && |x.sys.entries| < limit && x.clock == 0
    ensures CanReachInTime(from, y, windowSeconds, limit, 0) && Uniform(y.sys.entries)
    ensures y.sys.clients == x.sys.clients && |y.sys.entries| == |x.sys.entries| + 1 && y.added == x.added + 1
    ensures y.clock == 0 && y.lost == x.lost
  {
    y := Advance(from, x, 0, 0, 0, windowSeconds, limit);
    y := Advance(from, y, 0, 1, 0, windowSeconds, limit);
    y := Advance(from, y, 0, 2, 0, windowSeconds, limit);
    y := Advance(from, y, 0, 3, 0, windowSeconds, limit);
    y := Advance(from, y, 0, 4, 0, windowSeconds, limit);
    assert y.sys.clients == x.sys.clients;
  }

  /** `n` checks of the first client, one after the other. */
  lemma {:induction false} FillInTime(k: nat, n: nat, windowSeconds: int, limit: int) returns (y: Watched)
    requires k >= 1 && n <= limit && windowSeconds >= 1
    ensures CanReachInTime(InitiallyWatched(k, 0), y, windowSeconds, limit, 0) && Uniform(y.sys.entries)
    ensures AllAt(y.sys.clients, 0) && |y.sys.clients| == k
    ensures |y.sys.entries| == n && y.added == n && y.clock == 0 && y.lost == 0
  {
    var from := InitiallyWatched(k, 0);
    if n == 0 {
      y := from;
      assert ReachesInTime(from, [], y, windowSeconds, limit, 0);
    } else {
      y := FillInTime(k, n - 1, windowSeconds, limit);
      y := OneCheck(from, y, windowSeconds, limit);
    }
  }

  /** A usage query one window later finds that all entries have left. */
  lemma QueryEmpties(from: Watched, x: Watched, windowSeconds: int, limit: int) returns (y: Watched)
    requires CanReachInTime(from, x, windowSeconds, limit, 0) && windowSeconds >= 1
    requires x.clock == 0 && Uniform(x.sys.entries)
    ensures CanReachInTime(from, y, windowSeconds, limit, 0) && y.clock == windowSeconds * 1000
    ensures y.sys == System(map[], x.sys.clients) && y.added == x.added && y.lost == x.lost
  {
    var m := Moment(windowSeconds * 1000, UsagePrune(0));
    ThenInTime(from, x, m, windowSeconds, limit, 0);
    y := Happens(x, m, windowSeconds, limit, 0);
    assert After(x.sys.entries, 0) == map[];
  }

  /** The bound is exact: with nothing lost, `k` clients can add limit + 2k - 1 entries with a time in one
      window, if all of them start a second check just before it ends and a usage query then empties the
      set. */
  lemma RateBoundIsReached(k: nat, windowSeconds: int, limit: int) returns (y: Watched)
    requires k >= 1 && limit >= 1 && windowSeconds >= 1
    ensures CanReachInTime(InitiallyWatched(k, 0), y, windowSeconds, limit, 0)
    ensures y.added == limit + 2 * k - 1 && y.lost == 0
  {
    var from := InitiallyWatched(k, 0);
    y := FillInTime(k, limit - 1, windowSeconds, limit);
    y := SweepAll(from, y, 0, 0, windowSeconds, limit);
    y := AddTogether(from, y, 0, windowSeconds, limit);
    y := SweepAll(from, y, 4, 0, windowSeconds, limit);
    y := SweepAll(from, y, 0, 0, windowSeconds, limit);
    y := QueryEmpties(from, y, windowSeconds, limit);
    y := AddTogether(from, y, windowSeconds * 1000, windowSeconds, limit);
  }
}
