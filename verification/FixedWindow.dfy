/** The in-memory fixed-window limiter: its table, its cleanup, and what a key can get through. */
module FixedWindow {
  import opened Common

  datatype Slot = Slot(count: int, start: real)

  /** A dictionary in insertion order. */
  datatype Table = Table(order: seq<string>, slots: map<string, Slot>)

  const NO_SLOTS := Table([], map[])
  const MAX_RETENTION: real := 3600.0

  datatype Answer = Answer(allowed: bool, remaining: int, resetAt: int)

  /** `int(x)` of the source: towards zero. */
  function Trunc(x: real): (n: int)
    ensures x >= 0.0 ==> n as real <= x < (n + 1) as real
    ensures x < 0.0 ==> (n - 1) as real < x <= n as real
  {
    if x >= 0.0 then x.Floor else -((-x).Floor)
  }

  /** One request of one key: its new slot and the answer. */
  function Hit(slot: Option<Slot>, limit: int, window: int, now: real): (Slot, Answer) {
    if slot.None? || now - slot.value.start >= window as real then
      (Slot(1, now), Answer(true, limit - 1, Trunc(now) + window))
    else
      var count := slot.value.count + 1;
      (Slot(count, slot.value.start), Answer(count <= limit, Max(0, limit - count), Trunc(slot.value.start) + window))
  }

  function Lookup(t: Table, key: string): Option<Slot> {
    if key in t.slots then Some(t.slots[key]) else None
  }

  function Stored(t: Table, key: string, slot: Slot): Table {
    Table(if key in t.slots then t.order else t.order + [key], t.slots[key := slot])
  }

  function ExpiredKeys(order: seq<string>, slots: map<string, Slot>, now: real): (keys: seq<string>)
    ensures forall k :: k in keys ==> k in slots && now - slots[k].start > MAX_RETENTION
  {
    if order == [] then []
    else if order[0] in slots && now - slots[order[0]].start > MAX_RETENTION then
      [order[0]] + ExpiredKeys(order[1..], slots, now)
    else ExpiredKeys(order[1..], slots, now)
  }

  /** Removes the first expired keys, at most half of the table. */
  function Cleaned(t: Table, now: real): Table {
    var expired := ExpiredKeys(t.order, t.slots, now);
    var gone := Elems(expired[..Min(|t.slots| / 2, |expired|)]);
    Table(Filter(t.order, gone), t.slots - gone)
  }

  /** The entry of `key` after one request, in a table that has been cleaned if it had to be. */
  function Counted(t: Table, key: string, limit: int, window: int, now: real): (Table, Answer) {
    var (slot, answer) := Hit(Lookup(t, key), limit, window, now);
    (Stored(t, key, slot), answer)
  }

  function Kept(t: Table, maxKeys: Option<int>, now: real): Table {
    if maxKeys.Some? && |t.slots| > maxKeys.value then Cleaned(t, now) else t
  }

  /** A whole check; without a bound on the keys the table is never cleaned. */
  function Checked(t: Table, maxKeys: Option<int>, key: string, limit: int, window: int, now: real): (Table, Answer) {
    Counted(Kept(t, maxKeys, now), key, limit, window, now)
  }

  /** The clock is a parameter. */
  class InMemoryRateLimiter {
    var order: seq<string>
    var slots: map<string, Slot>
    const maxKeys: int

    function Model(): Table
      reads this
    {
      Table(order, slots)
    }

    constructor (maxKeys: int)
      ensures Model() == NO_SLOTS && this.maxKeys == maxKeys
    {
      order, slots := [], map[];
      this.maxKeys := maxKeys;
    }

    method CheckAndIncrement(key: string, limit: int, window: int, now: real) returns (answer: Answer)
      modifies this
      ensures (Model(), answer) == Checked(old(Model()), Some(maxKeys), key, limit, window, now)
    {
      var resetAt := Trunc(now) + window;
      if |slots| > maxKeys {
        CleanupExpired(now);
      }
      ghost var t := Model();
      ghost var (slot', answer') := Hit(Lookup(t, key), limit, window, now);
      assert (Stored(t, key, slot'), answer') == Checked(old(Model()), Some(maxKeys), key, limit, window, now);
      if key in slots {
        var slot := slots[key];
        if now - slot.start >= window as real {
          slots := slots[key := Slot(1, now)];
          answer := Answer(true, limit - 1, resetAt);
        } else {
          var newCount := slot.count + 1;
          slots := slots[key := Slot(newCount, slot.start)];
          answer := Answer(newCount <= limit, Max(0, limit - newCount), Trunc(slot.start) + window);
        }
      } else {
        slots := slots[key := Slot(1, now)];
        order := order + [key];
        answer := Answer(true, limit - 1, resetAt);
      }
      assert slots[key] == slot' && answer == answer';
    }

    method CleanupExpired(now: real)
      modifies this
      ensures Model() == Cleaned(old(Model()), now)
    {
      var expired := ExpiredKeys(order, slots, now);
      var doomed := expired[..Min(|slots| / 2, |expired|)];
      var i := 0;
      FilterNothing(order);
      while i < |doomed|
        invariant 0 <= i <= |doomed|
        invariant slots == old(slots) - Elems(doomed[..i])
        invariant order == Filter(old(order), Elems(doomed[..i]))
      {
        PopOneMore(old(order), old(slots), doomed, i);
        slots := slots - {doomed[i]};
        order := Filter(order, {doomed[i]});
        i := i + 1;
      }
      assert doomed[..|doomed|] == doomed;
    }

    method Reset()
      modifies this
      ensures Model() == NO_SLOTS
    {
      order, slots := [], map[];
    }
  }

  lemma {:induction false} FilterNothing(s: seq<string>)
    ensures Filter(s, Elems([])) == s
  {
    if s != [] {
      FilterNothing(s[1..]);
    }
  }

  lemma {:induction false} FilterAgain(s: seq<string>, gone: set<string>, x: string)
    ensures Filter(Filter(s, gone), {x}) == Filter(s, gone + {x})
  {
    if s != [] {
      FilterAgain(s[1..], gone, x);
    }
  }

  lemma PopOneMore(order: seq<string>, slots: map<string, Slot>, doomed: seq<string>, i: nat)
    requires i < |doomed|
    ensures Filter(Filter(order, Elems(doomed[..i])), {doomed[i]}) == Filter(order, Elems(doomed[..i + 1]))
    ensures slots - Elems(doomed[..i]) - {doomed[i]} == slots - Elems(doomed[..i + 1])
  {
    var gone := Elems(doomed[..i]);
    assert Elems(doomed[..i + 1]) == gone + {doomed[i]};
    FilterAgain(order, gone, doomed[i]);
    assert slots - gone - {doomed[i]} == slots - (gone + {doomed[i]});
  }

  // ---------------------------------------------------------------------------
  // Cleanup is invisible
  // ---------------------------------------------------------------------------

  datatype Call = Call(key: string, limit: int, window: int, now: real)

  /** The table and the answers after a sequence of calls. */
  function Run(calls: seq<Call>, maxKeys: Option<int>): (Table, seq<Answer>) {
    if calls == [] then (NO_SLOTS, [])
    else
      var (t, answers) := Run(calls[..|calls| - 1], maxKeys);
      var c := calls[|calls| - 1];
      var (u, a) := Checked(t, maxKeys, c.key, c.limit, c.window, c.now);
      (u, answers + [a])
  }

  ghost predicate InTime(calls: seq<Call>) {
    forall i, j :: 0 <= i < j < |calls| ==> calls[i].now <= calls[j].now
  }

  /** `a` is `b` without some keys whose slots are past retention at `now`. */
  ghost predicate Thinned(a: Table, b: Table, now: real) {
    && (forall k :: k in a.slots ==> k in b.slots && a.slots[k] == b.slots[k])
    && (forall k :: k in b.slots && k !in a.slots ==> now - b.slots[k].start > MAX_RETENTION)
  }

  lemma CleaningThins(a: Table, b: Table, now: real)
    requires Thinned(a, b, now)
    ensures Thinned(Cleaned(a, now), b, now)
  {
    var expired := ExpiredKeys(a.order, a.slots, now);
    var gone := Elems(expired[..Min(|a.slots| / 2, |expired|)]);
    forall k | k in b.slots && k !in a.slots - gone ensures now - b.slots[k].start > MAX_RETENTION {
      if k in gone {
        assert k in expired;
      }
    }
  }

  lemma CheckThins(a: Table, b: Table, maxKeys: Option<int>, was: real, c: Call)
    requires Thinned(a, b, was) && was <= c.now && c.window as real <= MAX_RETENTION
    ensures Thinned(Checked(a, maxKeys, c.key, c.limit, c.window, c.now).0,
                    Checked(b, None, c.key, c.limit, c.window, c.now).0, c.now)
    ensures Checked(a, maxKeys, c.key, c.limit, c.window, c.now).1
         == Checked(b, None, c.key, c.limit, c.window, c.now).1
  {
    assert Thinned(a, b, c.now);
    CleaningThins(a, b, c.now);
    var u := if maxKeys.Some? && |a.slots| > maxKeys.value then Cleaned(a, c.now) else a;
    assert Thinned(u, b, c.now);
    assert Hit(Lookup(u, c.key), c.limit, c.window, c.now) == Hit(Lookup(b, c.key), c.limit, c.window, c.now);
  }

  /** While every window fits within the retention time, no trace over any keys can tell a limiter that
      cleans up from one that never does. */
  lemma {:induction false} CleanupIsInvisible(calls: seq<Call>, maxKeys: Option<int>)
    requires InTime(calls) && forall c :: c in calls ==> c.window as real <= MAX_RETENTION
    ensures Run(calls, maxKeys).1 == Run(calls, None).1
    ensures calls != [] ==> Thinned(Run(calls, maxKeys).0, Run(calls, None).0, calls[|calls| - 1].now)
  {
    if calls != [] {
      var init, c := calls[..|calls| - 1], calls[|calls| - 1];
      assert c in calls && forall x :: x in init ==> x in calls;
      CleanupIsInvisible(init, maxKeys);
      var was := if init == [] then c.now else init[|init| - 1].now;
      CheckThins(Run(init, maxKeys).0, Run(init, None).0, maxKeys, was, c);
    }
  }

  // ---------------------------------------------------------------------------
  // What one key can get through
  // ---------------------------------------------------------------------------

  /** The times at which `key` was let through. */
  function Admitted(calls: seq<Call>, answers: seq<Answer>, key: string): seq<real>
    requires |calls| == |answers|
  {
    if calls == [] then []
    else
      var n := |calls| - 1;
      Admitted(calls[..n], answers[..n], key)
      + if calls[n].key == key && answers[n].allowed then [calls[n].now] else []
  }

  /** How many of the times lie in [from, to]. */
  function CountIn(times: seq<real>, from: real, to: real): nat {
    if times == [] then 0
    else CountIn(times[..|times| - 1], from, to) + if from <= times[|times| - 1] <= to then 1 else 0
  }

  /** How many of the times lie in [from, before). */
  function CountBefore(times: seq<real>, from: real, before: real): nat {
    if times == [] then 0
    else CountBefore(times[..|times| - 1], from, before) + if from <= times[|times| - 1] < before then 1 else 0
  }

  ghost predicate Upto(times: seq<real>, now: real) {
    forall i :: 0 <= i < |times| ==> times[i] <= now
  }

  lemma CountAppend(times: seq<real>, t: real, from: real, to: real)
    ensures CountIn(times + [t], from, to) == CountIn(times, from, to) + if from <= t <= to then 1 else 0
    ensures CountBefore(times + [t], from, to) == CountBefore(times, from, to) + if from <= t < to then 1 else 0
  {
    assert (times + [t])[..|times + [t]| - 1] == times;
  }

  /** An interval that starts within a window before `s` splits at `s`. */
  lemma {:induction false} CountSplit(times: seq<real>, from: real, to: real, lo: real, s: real, now: real)
    requires lo <= from && Upto(times, now)
    ensures CountIn(times, from, to) <= CountBefore(times, lo, s) + CountIn(times, s, now)
  {
    if times != [] {
      CountSplit(times[..|times| - 1], from, to, lo, s, now);
    }
  }

  lemma {:induction false} CountWithin(times: seq<real>, from: real, to: real, s: real, now: real)
    requires s <= from && Upto(times, now)
    ensures CountIn(times, from, to) <= CountIn(times, s, now)
    ensures CountBefore(times, from, to) <= CountIn(times, s, now)
  {
    if times != [] {
      CountWithin(times[..|times| - 1], from, to, s, now);
    }
  }

  lemma {:induction false} CountAll(times: seq<real>, from: real, to: real, to2: real)
    requires Upto(times, to) && Upto(times, to2)
    ensures CountIn(times, from, to) == CountIn(times, from, to2)
  {
    if times != [] {
      CountAll(times[..|times| - 1], from, to, to2);
    }
  }

  lemma {:induction false} CountNone(times: seq<real>, from: real, to: real, before: real)
    requires (forall i :: 0 <= i < |times| ==> times[i] < before) && before <= from
    ensures CountIn(times, from, to) == 0
  {
    if times != [] {
      CountNone(times[..|times| - 1], from, to, before);
    }
  }

  /** What holds of a key's slot and its admissions between requests. */
  ghost predicate KeyInv(slot: Option<Slot>, times: seq<real>, limit: int, window: int, now: real) {
    && Upto(times, now)
    && (slot.None? ==> times == [])
    && (slot.Some? ==>
          var s := slot.value.start;
          && slot.value.count >= 1 && s <= now
          && (forall i :: 0 <= i < |times| ==> times[i] < s + window as real)
          && CountIn(times, s, now) <= Min(slot.value.count, limit)
          && CountBefore(times, s - window as real, s) <= limit)
  }

  ghost predicate Bounded(times: seq<real>, limit: int, window: int) {
    forall from: real, to: real :: to <= from + window as real ==> CountIn(times, from, to) <= 2 * limit
  }

  lemma NewWindowKeepsInv(slot: Option<Slot>, times: seq<real>, limit: int, window: int, was: real, now: real)
    requires KeyInv(slot, times, limit, window, was) && was <= now && limit >= 1 && window >= 1
    requires slot.None? || now - slot.value.start >= window as real
    ensures KeyInv(Some(Slot(1, now)), times + [now], limit, window, now)
  {
    var w := window as real;
    CountAppend(times, now, now, now);
    CountAppend(times, now, now - w, now);
    if slot.Some? {
      var s := slot.value.start;
      CountNone(times, now, now, now);
      CountWithin(times, now - w, now, s, was);
    }
  }

  lemma SameWindowKeepsInv(slot: Slot, times: seq<real>, limit: int, window: int, was: real, now: real)
    requires KeyInv(Some(slot), times, limit, window, was) && was <= now
    requires now - slot.start < window as real
    ensures slot.count + 1 <= limit ==>
              KeyInv(Some(Slot(slot.count + 1, slot.start)), times + [now], limit, window, now)
    ensures slot.count + 1 > limit ==> KeyInv(Some(Slot(slot.count + 1, slot.start)), times, limit, window, now)
  {
    var s := slot.start;
    CountAppend(times, now, s, now);
    CountAppend(times, now, s - window as real, s);
    CountAll(times, s, was, now);
  }

  lemma InvBounds(slot: Slot, times: seq<real>, limit: int, window: int, now: real, from: real, to: real)
    requires KeyInv(Some(slot), times, limit, window, now) && from >= slot.start - window as real
    ensures CountIn(times, from, to) <= 2 * limit
  {
    CountSplit(times, from, to, slot.start - window as real, slot.start, now);
  }

  lemma HitKeepsInv(slot: Option<Slot>, times: seq<real>, limit: int, window: int, was: real, now: real)
    requires KeyInv(slot, times, limit, window, was) && was <= now && limit >= 1 && window >= 1
    requires Bounded(times, limit, window)
    ensures var (next, answer) := Hit(slot, limit, window, now);
            var more := if answer.allowed then times + [now] else times;
            KeyInv(Some(next), more, limit, window, now) && Bounded(more, limit, window)
  {
    var (next, answer) := Hit(slot, limit, window, now);
    var more := if answer.allowed then times + [now] else times;
    if slot.None? || now - slot.value.start >= window as real {
      NewWindowKeepsInv(slot, times, limit, window, was, now);
    } else {
      SameWindowKeepsInv(slot.value, times, limit, window, was, now);
    }
    forall from: real, to: real | to <= from + window as real ensures CountIn(more, from, to) <= 2 * limit {
      if from >= next.start - window as real {
        InvBounds(next, more, limit, window, now, from, to);
      } else {
        CountAppend(times, now, from, to);
      }
    }
  }

  /** Every call of `key` carries this limit and this window. */
  ghost predicate Uniform(calls: seq<Call>, key: string, limit: int, window: int) {
    forall c :: c in calls && c.key == key ==> c.limit == limit && c.window == window
  }

  lemma RunLast(calls: seq<Call>, c: Call, maxKeys: Option<int>)
    ensures var (t, answers) := Run(calls, maxKeys);
            var (u, a) := Checked(t, maxKeys, c.key, c.limit, c.window, c.now);
            Run(calls + [c], maxKeys) == (u, answers + [a])
  {
    assert (calls + [c])[..|calls|] == calls;
  }

  lemma AdmittedLast(calls: seq<Call>, answers: seq<Answer>, c: Call, a: Answer, key: string)
    requires |calls| == |answers|
    ensures Admitted(calls + [c], answers + [a], key)
         == Admitted(calls, answers, key) + if c.key == key && a.allowed then [c.now] else []
  {
    assert (calls + [c])[..|calls|] == calls && (answers + [a])[..|calls|] == answers;
  }

  lemma CountedOther(t: Table, c: Call, key: string)
    ensures var (slot, answer) := Hit(Lookup(t, c.key), c.limit, c.window, c.now);
            var (u, a) := Counted(t, c.key, c.limit, c.window, c.now);
            a == answer && Lookup(u, key) == if c.key == key then Some(slot) else Lookup(t, key)
  {
  }

  ghost predicate KeyKept(t: Table, times: seq<real>, key: string, limit: int, window: int, now: real) {
    KeyInv(Lookup(t, key), times, limit, window, now) && Bounded(times, limit, window)
  }

  /** One more call, of the key or of another, and some time passing after it. */
  lemma CallKeepsInv(t: Table, times: seq<real>, c: Call, key: string, limit: int, window: int, now: real)
    requires KeyKept(t, times, key, limit, window, c.now) && limit >= 1 && window >= 1 && c.now <= now
    requires c.key == key ==> c.limit == limit && c.window == window
    ensures var (u, a) := Counted(t, c.key, c.limit, c.window, c.now);
            KeyKept(u, if c.key == key && a.allowed then times + [c.now] else times, key, limit, window, now)
  {
    var (u, a) := Counted(t, c.key, c.limit, c.window, c.now);
    CountedOther(t, c, key);
    if c.key == key {
      HitKeepsInv(Lookup(t, key), times, limit, window, c.now, c.now);
    }
    Later(Lookup(u, key), if c.key == key && a.allowed then times + [c.now] else times, limit, window, c.now, now);
  }

  /** Without cleanup; the induction behind `AtMostTwice`. */
  lemma {:induction false} UncleanedBound(calls: seq<Call>, key: string, limit: int, window: int, now: real)
    requires InTime(calls) && Uniform(calls, key, limit, window) && limit >= 1 && window >= 1
    requires forall c :: c in calls ==> c.now <= now
    ensures |Run(calls, None).1| == |calls|
    ensures KeyKept(Run(calls, None).0, Admitted(calls, Run(calls, None).1, key), key, limit, window, now)
  {
    if calls != [] {
      var init, c := calls[..|calls| - 1], calls[|calls| - 1];
      assert calls == init + [c];
      assert c in calls && forall x :: x in init ==> x in calls;
      UncleanedBound(init, key, limit, window, c.now);
      var (t, answers) := Run(init, None);
      var (u, a) := Counted(t, c.key, c.limit, c.window, c.now);
      RunLast(init, c, None);
      AdmittedLast(init, answers, c, a, key);
      var times := Admitted(init, answers, key);
      assert Admitted(calls, answers + [a], key) == if c.key == key && a.allowed then times + [c.now] else times;
      CallKeepsInv(t, times, c, key, limit, window, now);
    } else {
      NothingYet(limit, window, now);
    }
  }

  lemma NothingYet(limit: int, window: int, now: real)
    requires limit >= 1
    ensures KeyInv(None, [], limit, window, now) && Bounded([], limit, window)
  {
  }

  lemma Later(slot: Option<Slot>, times: seq<real>, limit: int, window: int, was: real, now: real)
    requires KeyInv(slot, times, limit, window, was) && was <= now
    ensures KeyInv(slot, times, limit, window, now)
  {
    if slot.Some? {
      CountAll(times, slot.value.start, was, now);
    }
  }

  /** On every trace over any keys, whatever the table's bound, a key with a fixed limit and window gets
      at most twice its limit through in any closed interval at most one window long. */
  lemma AtMostTwice(calls: seq<Call>, maxKeys: Option<int>, key: string, limit: int, window: int)
    requires InTime(calls) && Uniform(calls, key, limit, window) && limit >= 1 && window >= 1
    requires forall c :: c in calls ==> c.window as real <= MAX_RETENTION
    ensures |Run(calls, maxKeys).1| == |calls|
    ensures Bounded(Admitted(calls, Run(calls, maxKeys).1, key), limit, window)
  {
    var now := if calls == [] then 0.0 else calls[|calls| - 1].now;
    UncleanedBound(calls, key, limit, window, now);
    CleanupIsInvisible(calls, maxKeys);
  }

  /** The bound needs a limit of at least one: a first request is let through whatever the limit. */
  lemma FirstIsAlwaysLetThrough(c: Call, maxKeys: Option<int>)
    requires c.window >= 0
    ensures Run([c], maxKeys).1 == [Answer(true, c.limit - 1, Trunc(c.now) + c.window)]
    ensures Bounded(Admitted([c], Run([c], maxKeys).1, c.key), c.limit, c.window) <==> c.limit >= 1
  {
    FirstRun(c, maxKeys);
    OneTime(c.now, c.limit, c.window);
  }

  lemma FirstRun(c: Call, maxKeys: Option<int>)
    ensures Run([c], maxKeys).1 == [Answer(true, c.limit - 1, Trunc(c.now) + c.window)]
    ensures Admitted([c], Run([c], maxKeys).1, c.key) == [c.now]
  {
    RunLast([], c, maxKeys);
    assert [] + [c] == [c];
    var a := Run([c], maxKeys).1[0];
    AdmittedLast([], [], c, a, c.key);
    assert [] + [a] == [a];
  }

  lemma OneTime(t: real, limit: int, window: int)
    requires window >= 0
    ensures Bounded([t], limit, window) <==> limit >= 1
  {
    assert [] + [t] == [t];
    forall from: real, to: real ensures CountIn([t], from, to) == if from <= t <= to then 1 else 0 {
      CountAppend([], t, from, to);
    }
    assert CountIn([t], t, t) == 1;
  }

  /** Past the retention time, cleanup shows: a limiter of at most one key forgets `a` and lets it
      through again within its window. */
  lemma LongWindowsAreForgotten(window: int)
    requires window as real > MAX_RETENTION
    ensures InTime(ForgottenCalls(window))
    ensures |Run(ForgottenCalls(window), Some(1)).1| == |Run(ForgottenCalls(window), None).1| == 3
    ensures Run(ForgottenCalls(window), Some(1)).1[2].allowed
    ensures !Run(ForgottenCalls(window), None).1[2].allowed
  {
    var two, third := FirstTwo(window), Call("a", 1, window, 3600.5);
    assert two == [two[0], two[1]];
    ForgottenBy(two[0], two[1], third, Some(1));
    ForgottenBy(two[0], two[1], third, None);
  }

  function FirstTwo(window: int): seq<Call> {
    [Call("a", 1, window, 0.0), Call("b", 1, window, 0.0)]
  }

  function ForgottenCalls(window: int): seq<Call> {
    FirstTwo(window) + [Call("a", 1, window, 3600.5)]
  }

  lemma ForgottenBy(a: Call, b: Call, c: Call, maxKeys: Option<int>)
    requires a.key == c.key == "a" && b.key == "b" && a.now == b.now == 0.0 && a.window == b.window == c.window
    requires c.limit == 1 && MAX_RETENTION < c.now < c.window as real && (maxKeys.None? || maxKeys.value == 1)
    ensures |Run([a, b] + [c], maxKeys).1| == 3
    ensures Run([a, b] + [c], maxKeys).1[2].allowed <==> maxKeys.Some?
  {
    RunTwo(a, b, maxKeys);
    RunLast([a, b], c, maxKeys);
    ThirdCall(Run([a, b], maxKeys).0, c);
  }

  lemma ThirdCall(t: Table, c: Call)
    requires t.order == ["a", "b"] && t.slots == map["a" := Slot(1, 0.0), "b" := Slot(1, 0.0)]
    requires c.key == "a" && c.limit == 1 && MAX_RETENTION < c.now < c.window as real
    ensures Checked(t, Some(1), c.key, c.limit, c.window, c.now).1.allowed
    ensures !Checked(t, None, c.key, c.limit, c.window, c.now).1.allowed
  {
    CleanedTwo(t, c.now);
  }

  lemma RunTwo(a: Call, b: Call, maxKeys: Option<int>)
    requires a.key == "a" && b.key == "b" && a.now == b.now == 0.0 && a.window == b.window >= 0
    requires maxKeys.None? || maxKeys.value == 1
    ensures Run([a, b], maxKeys).0 == Table(["a", "b"], map["a" := Slot(1, 0.0), "b" := Slot(1, 0.0)])
    ensures |Run([a, b], maxKeys).1| == 2
  {
    RunLast([], a, maxKeys);
    assert [] + [a] == [a];
    RunLast([a], b, maxKeys);
    assert [a] + [b] == [a, b];
  }

  lemma CleanedTwo(t: Table, now: real)
    requires t.order == ["a", "b"] && t.slots == map["a" := Slot(1, 0.0), "b" := Slot(1, 0.0)]
    requires now > MAX_RETENTION
    ensures |t.slots| == 2 && "a" !in Cleaned(t, now).slots
  {
    assert t.slots.Keys == {"a", "b"};
    assert t.order[0] == "a";
    var expired := ExpiredKeys(t.order, t.slots, now);
    assert expired[0] == "a";
    var doomed := expired[..Min(|t.slots| / 2, |expired|)];
    assert doomed[0] == "a";
  }

  /** A rejected client that comes back exactly at the announced reset time, with nothing in between, gets
      through exactly when its window began on a whole second: the announced time is rounded down. */
  lemma RetryAtResetIff(slot: Slot, limit: int, window: int, now: real)
    requires 0.0 <= slot.start <= now < slot.start + window as real && limit >= 1 && slot.count >= limit
    ensures var (next, answer) := Hit(Some(slot), limit, window, now);
            && !answer.allowed && answer.remaining == 0
            && Hit(Some(next), limit, window, answer.resetAt as real).1.allowed
               == (slot.start == slot.start.Floor as real)
  {
    var floor := slot.start.Floor;
    assert (floor + window) as real == floor as real + window as real;
  }

  /** A client that was rejected at 10.5 in a window from 0.5 to 60.5 and returns at the announced 60. */
  lemma RejectedAtReset()
    ensures var (next, answer) := Hit(Some(Slot(1, 0.5)), 1, 60, 10.5);
            && !answer.allowed && answer.resetAt == 60
            && !Hit(Some(next), 1, 60, 60.0).1.allowed
  {
  }

  // ---------------------------------------------------------------------------
  // Every answer, from the history
  // ---------------------------------------------------------------------------

  /** When the window of `key` began: at its last call that found no window, or one that had ended. */
  function WindowStart(calls: seq<Call>, key: string): Option<real> {
    if calls == [] then None
    else
      var before, c := WindowStart(calls[..|calls| - 1], key), calls[|calls| - 1];
      if c.key == key && (before.None? || c.now - before.value >= c.window as real) then Some(c.now) else before
  }

  /** How many calls of `key` that window has seen, its first one included. */
  function CallsInWindow(calls: seq<Call>, key: string): nat {
    if calls == [] then 0
    else
      var init, c := calls[..|calls| - 1], calls[|calls| - 1];
      if c.key != key then CallsInWindow(init, key)
      else if WindowStart(init, key).None? || c.now - WindowStart(init, key).value >= c.window as real then 1
      else CallsInWindow(init, key) + 1
  }

  lemma {:induction false} SlotIsHistory(calls: seq<Call>, key: string)
    ensures Lookup(Run(calls, None).0, key)
         == match WindowStart(calls, key)
            case None => None
            case Some(start) => Some(Slot(CallsInWindow(calls, key), start))
  {
    if calls != [] {
      var init, c := calls[..|calls| - 1], calls[|calls| - 1];
      SlotIsHistory(init, key);
      CountedOther(Run(init, None).0, c, key);
    }
  }

  /** What a call should be answered after a history: it is let through if it opens a window, or if at most
      limit - 1 calls came in its window before it. */
  ghost predicate Fair(calls: seq<Call>, c: Call, a: Answer) {
    var start, seen := WindowStart(calls, c.key), CallsInWindow(calls, c.key);
    if start.None? || c.now - start.value >= c.window as real then
      a.allowed && a.remaining == c.limit - 1 && a.resetAt == Trunc(c.now) + c.window
    else
      && (a.allowed <==> seen <= c.limit - 1)
      && a.remaining == (if c.limit > seen + 1 then c.limit - (seen + 1) else 0)
      && a.resetAt == Trunc(start.value) + c.window
  }

  lemma UncleanedIsFair(calls: seq<Call>, c: Call)
    ensures Fair(calls, c, Counted(Run(calls, None).0, c.key, c.limit, c.window, c.now).1)
  {
    SlotIsHistory(calls, c.key);
  }

  lemma {:induction false} AnswerForEach(calls: seq<Call>, maxKeys: Option<int>)
    ensures |Run(calls, maxKeys).1| == |calls|
  {
    if calls != [] {
      AnswerForEach(calls[..|calls| - 1], maxKeys);
    }
  }

  /** While every window fits within the retention time, the answer to each call of any trace is exactly that,
      whatever limits and windows the calls of a key carry and whenever the table is cleaned. */
  lemma AnswerIsExact(calls: seq<Call>, c: Call, maxKeys: Option<int>)
    requires InTime(calls + [c]) && forall x :: x in calls + [c] ==> x.window as real <= MAX_RETENTION
    ensures |Run(calls + [c], maxKeys).1| == |calls| + 1
    ensures Fair(calls, c, Run(calls + [c], maxKeys).1[|calls|])
  {
    CleanupIsInvisible(calls + [c], maxKeys);
    AnswerForEach(calls, None);
    RunLast(calls, c, None);
    UncleanedIsFair(calls, c);
  }

  /** One more call of a key at the time its window began. */
  lemma AtOnce(calls: seq<Call>, c: Call, n: nat)
    requires c.window > 0 && Lookup(Run(calls, None).0, c.key) == Some(Slot(n, c.now))
    ensures Lookup(Run(calls + [c], None).0, c.key) == Some(Slot(n + 1, c.now))
    ensures Run(calls + [c], None).1
         == Run(calls, None).1 + [Answer(n < c.limit, Max(0, c.limit - n - 1), Trunc(c.now) + c.window)]
  {
    RunLast(calls, c, None);
    CountedOther(Run(calls, None).0, c, c.key);
  }

  /** Of three calls within one window, a limit of two lets the first two through and not the third. */
  lemma LimitOfTwo(c: Call)
    requires c.limit == 2 && c.window > 0
    ensures var resetAt := Trunc(c.now) + c.window;
            Run([c, c, c], None).1 == [Answer(true, 1, resetAt), Answer(true, 0, resetAt), Answer(false, 0, resetAt)]
  {
    FirstRun(c, None);
    SlotIsHistory([c], c.key);
    assert [c][..0] == [] && [c] + [c] == [c, c] && [c, c] + [c] == [c, c, c];
    AtOnce([c], c, 1);
    AtOnce([c, c], c, 2);
  }

  // ---------------------------------------------------------------------------
  // What cleanup removes
  // ---------------------------------------------------------------------------

  predicate IsExpired(t: Table, key: string, now: real) {
    key in t.slots && now - t.slots[key].start > 3600.0
  }

  ghost predicate Coherent(t: Table) {
    NoDup(t.order) && Elems(t.order) == t.slots.Keys
  }

  lemma {:induction false} ExpiredAre(order: seq<string>, slots: map<string, Slot>, now: real)
    requires NoDup(order)
    ensures NoDup(ExpiredKeys(order, slots, now))
    ensures forall k :: k in ExpiredKeys(order, slots, now) <==>
                          k in order && k in slots && now - slots[k].start > 3600.0
  {
    if order != [] {
      ExpiredAre(order[1..], slots, now);
      assert order[0] !in order[1..];
    }
  }

  lemma {:induction false} OldestFirst(order: seq<string>, slots: map<string, Slot>, now: real, m: nat, i: nat, j: nat)
    requires NoDup(order) && i < j < |order| && m <= |ExpiredKeys(order, slots, now)|
    requires order[i] in slots && now - slots[order[i]].start > 3600.0
    requires order[j] in ExpiredKeys(order, slots, now)[..m]
    ensures order[i] in ExpiredKeys(order, slots, now)[..m]
    decreases |order|
  {
    var expired, rest := ExpiredKeys(order, slots, now), ExpiredKeys(order[1..], slots, now);
    if order[0] in slots && now - slots[order[0]].start > 3600.0 {
      assert expired == [order[0]] + rest && m >= 1;
      assert expired[..m] == [order[0]] + rest[..m - 1];
      if i > 0 {
        assert order[j] != order[0];
        OldestFirst(order[1..], slots, now, m - 1, i - 1, j - 1);
      }
    } else {
      OldestFirst(order[1..], slots, now, m, i - 1, j - 1);
    }
  }

  /** Cleanup removes only keys past the retention time, the oldest entries first, and as many of them as there
      are or as half of the table is, whichever is less; the others keep their slots. */
  lemma CleanupRemoves(t: Table, now: real)
    requires Coherent(t)
    ensures var u := Cleaned(t, now);
            && (forall k :: k in u.slots ==> k in t.slots && u.slots[k] == t.slots[k])
            && (forall k :: k in t.slots && k !in u.slots ==> IsExpired(t, k, now))
            && (forall i, j :: 0 <= i < j < |t.order| && IsExpired(t, t.order[i], now) && t.order[j] !in u.slots ==>
                  t.order[i] !in u.slots)
    ensures var expired := set k | k in t.slots && IsExpired(t, k, now);
            |Cleaned(t, now).slots| == |t.slots| - Min(|t.slots| / 2, |expired|)
  {
    var keys := ExpiredKeys(t.order, t.slots, now);
    var m := Min(|t.slots| / 2, |keys|);
    var gone := Elems(keys[..m]);
    ExpiredAre(t.order, t.slots, now);
    RemovedCount(t, now, keys, m);
    forall i, j | 0 <= i < j < |t.order| && IsExpired(t, t.order[i], now) && t.order[j] !in Cleaned(t, now).slots
      ensures t.order[i] !in Cleaned(t, now).slots
    {
      assert t.order[j] in Elems(t.order);
      OldestFirst(t.order, t.slots, now, m, i, j);
    }
  }

  lemma RemovedCount(t: Table, now: real, keys: seq<string>, m: nat)
    requires Coherent(t) && NoDup(keys) && m == Min(|t.slots| / 2, |keys|)
    requires forall k :: k in keys <==> k in t.order && k in t.slots && now - t.slots[k].start > 3600.0
    ensures |t.slots - Elems(keys[..m])| == |t.slots| - m
    ensures |set k | k in t.slots && IsExpired(t, k, now)| == |keys|
  {
    NoDupElems(keys);
    NoDupElems(keys[..m]);
    assert forall k :: k in t.slots <==> k in Elems(t.order);
    assert (set k | k in t.slots && IsExpired(t, k, now)) == Elems(keys);
    var gone := Elems(keys[..m]);
    assert forall k :: k in keys[..m] ==> k in keys;
    assert (t.slots - gone).Keys == t.slots.Keys - gone && gone <= t.slots.Keys;
  }

  lemma StoredCoherent(t: Table, key: string, slot: Slot)
    requires Coherent(t)
    ensures Coherent(Stored(t, key, slot))
  {
    if key !in t.slots {
      assert key !in Elems(t.order);
      assert Elems(t.order + [key]) == Elems(t.order) + {key};
    }
  }

  lemma CleanedCoherent(t: Table, now: real)
    requires Coherent(t)
    ensures Coherent(Cleaned(t, now))
  {
    var expired := ExpiredKeys(t.order, t.slots, now);
    FilterNoDup(t.order, Elems(expired[..Min(|t.slots| / 2, |expired|)]));
  }

  /** The table of every trace is coherent, so that is what cleanup does to it. */
  lemma {:induction false} TablesAreCoherent(calls: seq<Call>, maxKeys: Option<int>)
    ensures Coherent(Run(calls, maxKeys).0)
  {
    if calls != [] {
      var init, c := calls[..|calls| - 1], calls[|calls| - 1];
      var t := Run(init, maxKeys).0;
      TablesAreCoherent(init, maxKeys);
      CleanedCoherent(t, c.now);
      var kept := Kept(t, maxKeys, c.now);
      StoredCoherent(kept, c.key, Hit(Lookup(kept, c.key), c.limit, c.window, c.now).0);
    }
  }
}
