/** The command-by-command fallback of the sliding-window check, interleaved by several clients. */
module FallbackWindow {
  /** How far one client's check has got: its timestamp is taken once, at the start. */
  datatype Client =
    | Away
    | Started(now: int)
    | Pruned(now: int)
    | Granted(now: int)
    | Added(now: int)

  /** The sorted set of one key, and the checks in flight. */
  datatype System = System(entries: map<string, int>, clients: seq<Client>)

  /** Steps of a client, and what happens to the key from outside: a usage query prunes it, its time to
      live runs out. A client may also give up after an exception, at any point. */
  datatype Action =
    | Start(client: nat, now: int)
    | Prune(client: nat)
    | CountStep(client: nat)
    | Add(client: nat, member: string)
    | Expire(client: nat)
    | GiveUp(client: nat)
    | UsagePrune(windowStart: int)
    | KeyExpires

  predicate Enabled(s: System, a: Action) {
    match a
    case Start(c, _) => c < |s.clients| && s.clients[c].Away?
    case Prune(c) => c < |s.clients| && s.clients[c].Started?
    case CountStep(c) => c < |s.clients| && s.clients[c].Pruned?
    case Add(c, _) => c < |s.clients| && s.clients[c].Granted?
    case Expire(c) => c < |s.clients| && s.clients[c].Added?
    case GiveUp(c) => c < |s.clients|
    case UsagePrune(_) => true
    case KeyExpires => true
  }

  function After(entries: map<string, int>, windowStart: int): map<string, int> {
    map m | m in entries && entries[m] > windowStart :: entries[m]
  }

  function Step(s: System, a: Action, windowSeconds: int, limit: int): System
    requires Enabled(s, a)
  {
    match a
    case Start(c, now) => s.(clients := s.clients[c := Started(now)])
    case Prune(c) =>
      var now := s.clients[c].now;
      System(After(s.entries, now - windowSeconds * 1000), s.clients[c := Pruned(now)])
    case CountStep(c) =>
      s.(clients := s.clients[c := if |s.entries| < limit then Granted(s.clients[c].now) else Away])
    case Add(c, member) =>
      var now := s.clients[c].now;
      System(s.entries[member := now], s.clients[c := Added(now)])
    case Expire(c) => s.(clients := s.clients[c := Away])
    case GiveUp(c) => s.(clients := s.clients[c := Away])
    case UsagePrune(windowStart) => s.(entries := After(s.entries, windowStart))
    case KeyExpires => s.(entries := map[])
  }

  function Initial(clients: nat): System {
    System(map[], seq(clients, _ => Away))
  }

  ghost predicate Reaches(s: System, actions: seq<Action>, t: System, windowSeconds: int, limit: int)
    decreases |actions|
  {
    if actions == [] then s == t
    else Enabled(s, actions[0])
         && Reaches(Step(s, actions[0], windowSeconds, limit), actions[1..], t, windowSeconds, limit)
  }

  // ---------------------------------------------------------------------------
  // The overshoot
  // ---------------------------------------------------------------------------

  /** The clients that were granted a slot and have not taken it yet. */
  function Grants(clients: seq<Client>): nat {
    if clients == [] then 0 else (if clients[0].Granted? then 1 else 0) + Grants(clients[1..])
  }

  lemma {:induction false} GrantsUpdate(clients: seq<Client>, c: nat, v: Client)
    requires c < |clients|
    ensures Grants(clients[c := v])
         == Grants(clients) - (if clients[c].Granted? then 1 else 0) + (if v.Granted? then 1 else 0)
  {
    if c == 0 {
      assert clients[c := v][1..] == clients[1..];
    } else {
      assert clients[c := v][1..] == clients[1..][c - 1 := v];
      GrantsUpdate(clients[1..], c - 1, v);
    }
  }

  lemma {:induction false} GrantsBound(clients: seq<Client>)
    ensures Grants(clients) <= |clients|
  {
    if clients != [] {
      GrantsBound(clients[1..]);
    }
  }

  lemma AfterSize(entries: map<string, int>, windowStart: int)
    ensures |After(entries, windowStart)| <= |entries|
  {
    var kept := After(entries, windowStart).Keys;
    assert kept <= entries.Keys;
    assert entries.Keys == kept + (entries.Keys - kept);
  }

  ghost predicate Inv(s: System, limit: int) {
    |s.entries| + Grants(s.clients) <= limit + |s.clients| - 1
  }

  lemma StepKeepsInv(s: System, a: Action, windowSeconds: int, limit: int)
    requires Inv(s, limit) && Enabled(s, a)
    ensures Inv(Step(s, a, windowSeconds, limit), limit)
  {
    var t := Step(s, a, windowSeconds, limit);
    match a {
      case Start(c, now) => GrantsUpdate(s.clients, c, t.clients[c]);
      case Prune(c) =>
        GrantsUpdate(s.clients, c, t.clients[c]);
        AfterSize(s.entries, s.clients[c].now - windowSeconds * 1000);
      case CountStep(c) =>
        GrantsUpdate(s.clients, c, t.clients[c]);
        GrantsBound(t.clients);
      case Add(c, member) =>
        GrantsUpdate(s.clients, c, t.clients[c]);
        assert t.entries.Keys == s.entries.Keys + {member};
      case Expire(c) => GrantsUpdate(s.clients, c, t.clients[c]);
      case GiveUp(c) => GrantsUpdate(s.clients, c, t.clients[c]);
      case UsagePrune(windowStart) => AfterSize(s.entries, windowStart);
      case KeyExpires =>
    }
  }

  lemma {:induction false} ReachableInv(s: System, actions: seq<Action>, t: System, windowSeconds: int, limit: int)
    requires Inv(s, limit) && Reaches(s, actions, t, windowSeconds, limit)
    ensures Inv(t, limit) && |t.clients| == |s.clients|
    decreases |actions|
  {
    if actions != [] {
      StepKeepsInv(s, actions[0], windowSeconds, limit);
      ReachableInv(Step(s, actions[0], windowSeconds, limit), actions[1..], t, windowSeconds, limit);
    }
  }

  lemma {:induction false} AwayGrantsNothing(clients: seq<Client>)
    requires forall i :: 0 <= i < |clients| ==> clients[i].Away?
    ensures Grants(clients) == 0
  {
    if clients != [] {
      AwayGrantsNothing(clients[1..]);
    }
  }

  /** With at most `k` checks in flight, whatever their steps' order, the set never holds more than
      limit + k - 1 entries. */
  lemma OvershootBound(k: nat, actions: seq<Action>, t: System, windowSeconds: int, limit: int)
    requires limit >= 1 && Reaches(Initial(k), actions, t, windowSeconds, limit)
    ensures |t.entries| <= limit + k - 1
  {
    AwayGrantsNothing(Initial(k).clients);
    ReachableInv(Initial(k), actions, t, windowSeconds, limit);
  }

  // ---------------------------------------------------------------------------
  // The overshoot happens
  // ---------------------------------------------------------------------------

  ghost predicate CanReach(s: System, t: System, windowSeconds: int, limit: int) {
    exists actions :: Reaches(s, actions, t, windowSeconds, limit)
  }

  lemma {:induction false} ReachesJoin(s: System, a: seq<Action>, t: System, b: seq<Action>, u: System,
                                       windowSeconds: int, limit: int)
    requires Reaches(s, a, t, windowSeconds, limit) && Reaches(t, b, u, windowSeconds, limit)
    ensures Reaches(s, a + b, u, windowSeconds, limit)
    decreases |a|
  {
    if a == [] {
      assert a + b == b;
    } else {
      assert (a + b)[0] == a[0] && (a + b)[1..] == a[1..] + b;
      ReachesJoin(Step(s, a[0], windowSeconds, limit), a[1..], t, b, u, windowSeconds, limit);
    }
  }

  lemma Then(s: System, t: System, a: Action, windowSeconds: int, limit: int)
    requires CanReach(s, t, windowSeconds, limit) && Enabled(t, a)
    ensures CanReach(s, Step(t, a, windowSeconds, limit), windowSeconds, limit)
  {
    var actions :| Reaches(s, actions, t, windowSeconds, limit);
    var u := Step(t, a, windowSeconds, limit);
    assert Reaches(u, [], u, windowSeconds, limit);
    assert [a][1..] == [];
    assert Reaches(t, [a], u, windowSeconds, limit);
    ReachesJoin(s, actions, t, [a], u, windowSeconds, limit);
  }

  /** Every entry has score 0 and a name shorter than their number. */
  ghost predicate Uniform(entries: map<string, int>) {
    forall m :: m in entries ==> entries[m] == 0 && |m| < |entries|
  }

  function Name(n: nat): string {
    seq(n, _ => 'x')
  }

  lemma AddUniform(entries: map<string, int>)
    requires Uniform(entries)
    ensures var more := entries[Name(|entries|) := 0]; Uniform(more) && |more| == |entries| + 1
  {
    var more := entries[Name(|entries|) := 0];
    assert Name(|entries|) !in entries;
    assert more.Keys == entries.Keys + {Name(|entries|)};
  }

  /** `n` checks one after the other fill the set as long as there is room. */
  lemma {:induction false} FillUp(k: nat, n: nat, windowSeconds: int, limit: int) returns (t: System)
    requires k >= 1 && n <= limit && windowSeconds >= 1
    ensures CanReach(Initial(k), t, windowSeconds, limit)
    ensures t.clients == Initial(k).clients && Uniform(t.entries) && |t.entries| == n
  {
    if n == 0 {
      t := Initial(k);
      assert Reaches(t, [], t, windowSeconds, limit);
    } else {
      var s := FillUp(k, n - 1, windowSeconds, limit);
      var granted := Grant(Initial(k), s, 0, windowSeconds, limit);
      Then(Initial(k), granted, Add(0, Name(|s.entries|)), windowSeconds, limit);
      var added := Step(granted, Add(0, Name(|s.entries|)), windowSeconds, limit);
      AddUniform(s.entries);
      Then(Initial(k), added, Expire(0), windowSeconds, limit);
      t := Step(added, Expire(0), windowSeconds, limit);
      assert t.clients == Initial(k).clients;
    }
  }

  /** One client starts, prunes nothing and is granted a slot. */
  lemma Grant(from: System, s: System, c: nat, windowSeconds: int, limit: int) returns (t: System)
    requires CanReach(from, s, windowSeconds, limit) && windowSeconds >= 1
    requires c < |s.clients| && s.clients[c].Away? && Uniform(s.entries) && |s.entries| < limit
    ensures CanReach(from, t, windowSeconds, limit)
    ensures t == System(s.entries, s.clients[c := Granted(0)])
  {
    Then(from, s, Start(c, 0), windowSeconds, limit);
    var s1 := Step(s, Start(c, 0), windowSeconds, limit);
    Then(from, s1, Prune(c), windowSeconds, limit);
    var s2 := Step(s1, Prune(c), windowSeconds, limit);
    assert s2.entries == s.entries;
    Then(from, s2, CountStep(c), windowSeconds, limit);
    t := Step(s2, CountStep(c), windowSeconds, limit);
    assert t.clients == s.clients[c := Granted(0)];
  }

  lemma {:induction false} GrantAll(from: System, s: System, n: nat, windowSeconds: int, limit: int) returns (t: System)
    requires CanReach(from, s, windowSeconds, limit) && windowSeconds >= 1
    requires n <= |s.clients| && Uniform(s.entries) && |s.entries| < limit
    requires forall i :: 0 <= i < |s.clients| ==> s.clients[i].Away?
    ensures CanReach(from, t, windowSeconds, limit) && t.entries == s.entries && |t.clients| == |s.clients|
    ensures forall i :: 0 <= i < |t.clients| ==> t.clients[i] == if i < n then Granted(0) else Away
  {
    if n == 0 {
      t := s;
    } else {
      var u := GrantAll(from, s, n - 1, windowSeconds, limit);
      t := Grant(from, u, n - 1, windowSeconds, limit);
    }
  }

  lemma {:induction false} AddAll(from: System, s: System, n: nat, windowSeconds: int, limit: int) returns (t: System)
    requires CanReach(from, s, windowSeconds, limit) && n <= |s.clients| && Uniform(s.entries)
    requires forall i :: 0 <= i < |s.clients| ==> s.clients[i] == Granted(0)
    ensures CanReach(from, t, windowSeconds, limit) && Uniform(t.entries) && |t.entries| == |s.entries| + n
    ensures |t.clients| == |s.clients| && forall i :: n <= i < |t.clients| ==> t.clients[i] == Granted(0)
  {
    if n == 0 {
      t := s;
    } else {
      var u := AddAll(from, s, n - 1, windowSeconds, limit);
      Then(from, u, Add(n - 1, Name(|u.entries|)), windowSeconds, limit);
      t := Step(u, Add(n - 1, Name(|u.entries|)), windowSeconds, limit);
      AddUniform(u.entries);
    }
  }

  /** The bound is exact: `k` clients can bring the set to limit + k - 1 entries. */
  lemma OvershootIsReached(k: nat, windowSeconds: int, limit: int) returns (t: System)
    requires k >= 1 && limit >= 1 && windowSeconds >= 1
    ensures CanReach(Initial(k), t, windowSeconds, limit) && |t.entries| == limit + k - 1
  {
    var s := FillUp(k, limit - 1, windowSeconds, limit);
    var u := GrantAll(Initial(k), s, k, windowSeconds, limit);
    t := AddAll(Initial(k), u, k, windowSeconds, limit);
  }
}
