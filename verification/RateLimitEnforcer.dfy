/** The rule-driven limiter: its commands, its decision with an optional burst window, and the dry run. */
module RateLimitEnforcer {
  import opened Common
  import opened SlidingWindow

  datatype RuleAction = Reject | Throttle | LogOnly

  datatype Rule = Rule(windowSeconds: int, requestsPerWindow: int,
                       burstLimit: Option<int>, burstWindowSeconds: Option<int>, action: RuleAction)

  datatype Decision = Decision(allowed: bool, currentCount: int, remaining: int,
                               retryAfter: Option<int>, burstRemaining: Option<int>)

  /** How one check fares: through the script, or command by command without interference; or not at all,
      with the server unavailable; or with an exception, after the script or some of the commands (prune,
      count, add, expire) have taken effect. */
  datatype Path =
    | Script
    | Commands
    | Unreachable
    | ScriptBreaks(applied: bool)
    | CommandsBreak(done: nat)

  /** How a usage query fares: its exception may come before or after the prune has taken effect. */
  datatype Read = Counts | Down | ReadBreaks(pruned: bool)

  predicate HasBurst(rule: Rule) {
    rule.burstLimit.Some? && rule.burstLimit.value != 0 &&
    rule.burstWindowSeconds.Some? && rule.burstWindowSeconds.value != 0
  }

  const NO_RULE := Decision(true, 0, 0, None, None)

  /** The decision as a function of the two check results. */
  function Decide(rule: Rule, count: int, mainAllowed: bool, burstCount: int, burstAllowed: bool): Decision {
    var allowed := mainAllowed && (!HasBurst(rule) || burstAllowed);
    Decision(allowed || rule.action != Reject, count, Max(0, rule.requestsPerWindow - count),
             if allowed then None else Some(Min(rule.windowSeconds, 60)),
             if HasBurst(rule) then Some(Max(0, rule.burstLimit.value - burstCount)) else None)
  }

  /** The set after the first commands of a check, of which there are four or, without room, two. */
  function AfterCommands(z: ZSet, now: int, windowSeconds: int, limit: int, member: string, done: nat): ZSet {
    var pruned := ZRemRangeByScore(Live(z, now), now - windowSeconds * 1000);
    if done == 0 then z
    else if done <= 2 || |pruned.entries| >= limit then pruned
    else if done == 3 then ZAdd(pruned, member, now)
    else Expire(ZAdd(pruned, member, now), now, windowSeconds + EXPIRY_BUFFER_SECONDS)
  }

  /** One check on any path: whatever goes wrong lets the request through and reports a count of zero. */
  function CheckVia(path: Path, z: ZSet, now: int, windowSeconds: int, limit: int, member: string): Checked {
    match path
    case Script => Check(z, now, windowSeconds, limit, member)
    case Commands => Check(z, now, windowSeconds, limit, member)
    case Unreachable => Checked(z, 0, true)
    case ScriptBreaks(applied) =>
      Checked(if applied then Check(z, now, windowSeconds, limit, member).zset else z, 0, true)
    case CommandsBreak(done) => Checked(AfterCommands(z, now, windowSeconds, limit, member, done), 0, true)
  }

  /** One usage query, likewise. */
  function UsageVia(read: Read, z: ZSet, now: int, windowSeconds: int): Checked {
    match read
    case Counts => Usage(z, now, windowSeconds)
    case Down => Checked(z, 0, false)
    case ReadBreaks(pruned) => Checked(if pruned then Usage(z, now, windowSeconds).zset else z, 0, false)
  }

  class Redis {
    var sets: map<string, ZSet>

    constructor ()
      ensures sets == map[]
    {
      sets := map[];
    }

    function At(key: string): ZSet
      reads this
    {
      if key in sets then sets[key] else ABSENT
    }

    method Put(key: string, z: ZSet)
      modifies this
      ensures At(key) == z
      ensures forall other :: other != key ==> At(other) == old(At(other))
    {
      sets := sets[key := z];
    }
  }

  class Enforcer {
    const failOpen: bool := true

    constructor () {
    }

    /** The commands of the fallback, of which the first `stop` take effect. */
    method RunCommands(redis: Redis, key: string, windowSeconds: int, limit: int, now: int, member: string, stop: nat)
        returns (count: int, allowed: bool)
      modifies redis
      ensures redis.At(key) == AfterCommands(old(redis.At(key)), now, windowSeconds, limit, member, stop)
      ensures stop == 0 ==> redis.At(key) == old(redis.At(key))
      ensures 1 <= stop <= 2 ==> redis.At(key) == Usage(old(redis.At(key)), now, windowSeconds).zset
      ensures stop >= 4 ==> redis.At(key) == Check(old(redis.At(key)), now, windowSeconds, limit, member).zset
      ensures stop >= 4 ==> count == Check(old(redis.At(key)), now, windowSeconds, limit, member).count
                            && allowed == Check(old(redis.At(key)), now, windowSeconds, limit, member).allowed
      ensures forall other :: other != key ==> redis.At(other) == old(redis.At(other))
    {
      count, allowed := 0, true;
      if stop == 0 {
        return;
      }
      redis.Put(key, ZRemRangeByScore(Live(redis.At(key), now), now - windowSeconds * 1000));
      count := |redis.At(key).entries|;
      if count >= limit {
        return count, false;
      }
      if stop >= 3 {
        redis.Put(key, ZAdd(redis.At(key), member, now));
      }
      if stop >= 4 {
        redis.Put(key, Expire(redis.At(key), now, windowSeconds + EXPIRY_BUFFER_SECONDS));
      }
      return count + 1, true;
    }

    /** One sliding-window check at time `now`. The script and the undisturbed commands do the same to the
        set; when anything goes wrong the request is let through. */
    method SlidingWindowCheck(redis: Redis, key: string, windowSeconds: int, limit: int,
                              now: int, member: string, path: Path)
        returns (count: int, allowed: bool)
      modifies redis
      ensures Checked(redis.At(key), count, allowed)
           == CheckVia(path, old(redis.At(key)), now, windowSeconds, limit, member)
      ensures path.Script? || path.Commands? ==>
                Checked(redis.At(key), count, allowed)
                == Check(old(redis.At(key)), now, windowSeconds, limit, member)
      ensures !path.Script? && !path.Commands? ==> count == 0 && allowed
      ensures path.Unreachable? ==> redis.At(key) == old(redis.At(key))
      ensures forall other :: other != key ==> redis.At(other) == old(redis.At(other))
    {
      match path {
        case Unreachable => return if failOpen then 0 else limit, failOpen;
        case Script =>
          var result := Check(redis.At(key), now, windowSeconds, limit, member);
          redis.Put(key, result.zset);
          return result.count, result.allowed;
        case Commands =>
          count, allowed := RunCommands(redis, key, windowSeconds, limit, now, member, 4);
        case ScriptBreaks(applied) =>
          if applied {
            redis.Put(key, Check(redis.At(key), now, windowSeconds, limit, member).zset);
          }
          return if failOpen then 0 else limit, failOpen;
        case CommandsBreak(done) =>
          count, allowed := RunCommands(redis, key, windowSeconds, limit, now, member, done);
          return if failOpen then 0 else limit, failOpen;
      }
    }

    /** The full check: the main window at `now`, then, whatever it says, the burst window under its own
        key at `burstNow`; each of them can fail by itself. */
    method CheckRateLimit(redis: Redis, matched: Option<Rule>, key: string, a: Attempt, path: Path, burstPath: Path)
        returns (decision: Decision)
      modifies redis
      ensures matched.None? ==> decision == NO_RULE && redis.sets == old(redis.sets)
      ensures matched.Some? ==>
                var rule := matched.value;
                var main := CheckVia(path, old(redis.At(key)), a.time,
                                     rule.windowSeconds, rule.requestsPerWindow, a.member);
                var hasBurst := && rule.burstLimit.Some? && rule.burstLimit.value != 0
                                && rule.burstWindowSeconds.Some? && rule.burstWindowSeconds.value != 0;
                var burst := if !hasBurst then Checked(old(redis.At(key + ":burst")), 0, true)
                             else CheckVia(burstPath, old(redis.At(key + ":burst")), a.burstTime,
                                           rule.burstWindowSeconds.value, rule.burstLimit.value, a.burstMember);
                && redis.At(key) == main.zset && redis.At(key + ":burst") == burst.zset
                && (decision.allowed <==> (main.allowed && burst.allowed) || rule.action != Reject)
                && decision.currentCount == main.count
                && decision.remaining == Max(0, rule.requestsPerWindow - main.count)
                && decision.retryAfter
                   == (if main.allowed && burst.allowed then None else Some(Min(rule.windowSeconds, 60)))
                && decision.burstRemaining
                   == (if hasBurst then Some(Max(0, rule.burstLimit.value - burst.count)) else None)
      ensures forall other :: other != key && other != key + ":burst" ==> redis.At(other) == old(redis.At(other))
    {
      if matched.None? {
        return NO_RULE;
      }
      var rule := matched.value;
      var currentCount, mainAllowed :=
        SlidingWindowCheck(redis, key, rule.windowSeconds, rule.requestsPerWindow, a.time, a.member, path);
      var burstRemaining: Option<int>, burstAllowed := None, true;
      if HasBurst(rule) {
        var burstCount;
        burstCount, burstAllowed := SlidingWindowCheck(redis, key + ":burst", rule.burstWindowSeconds.value,
                                                       rule.burstLimit.value, a.burstTime, a.burstMember, burstPath);
        burstRemaining := Some(Max(0, rule.burstLimit.value - burstCount));
      }
      var allowed := mainAllowed && burstAllowed;
      var remaining := Max(0, rule.requestsPerWindow - currentCount);
      var retryAfter: Option<int> := None;
      if !allowed {
        retryAfter := Some(Min(rule.windowSeconds, 60));
        if rule.action == Throttle || rule.action == LogOnly {
          allowed := true;
        }
      }
      decision := Decision(allowed, currentCount, remaining, retryAfter, burstRemaining);
    }

    /** The usage count of a rule: it prunes the set and adds nothing. */
    method GetCurrentUsage(redis: Redis, key: string, windowSeconds: int, now: int, read: Read) returns (count: int)
      modifies redis
      ensures count == UsageVia(read, old(redis.At(key)), now, windowSeconds).count
      ensures redis.At(key) == UsageVia(read, old(redis.At(key)), now, windowSeconds).zset
      ensures count == if read.Counts? then Usage(old(redis.At(key)), now, windowSeconds).count else 0
      ensures redis.At(key) == if read.Down? || (read.ReadBreaks? && !read.pruned) then old(redis.At(key))
                               else Usage(old(redis.At(key)), now, windowSeconds).zset
      ensures forall other :: other != key ==> redis.At(other) == old(redis.At(other))
    {
      if read.Down? || (read.ReadBreaks? && !read.pruned) {
        return 0;
      }
      redis.Put(key, ZRemRangeByScore(Live(redis.At(key), now), now - windowSeconds * 1000));
      count := if read.ReadBreaks? then 0 else |redis.At(key).entries|;
    }

    /** The manual check endpoint: a decision from the usage count alone. */
    method DryRun(redis: Redis, matched: Option<Rule>, key: string, now: int, read: Read) returns (decision: Decision)
      modifies redis
      ensures matched.None? ==> decision == NO_RULE && redis.sets == old(redis.sets)
      ensures matched.Some? ==>
                var usage := UsageVia(read, old(redis.At(key)), now, matched.value.windowSeconds);
                && redis.At(key) == usage.zset
                && (decision.allowed <==> usage.count < matched.value.requestsPerWindow)
                && decision.currentCount == usage.count
                && decision.remaining == Max(0, matched.value.requestsPerWindow - usage.count)
                && decision.retryAfter
                   == (if decision.allowed then None else Some(Min(matched.value.windowSeconds, 60)))
                && decision.burstRemaining.None?
      ensures forall other :: other != key ==> redis.At(other) == old(redis.At(other))
    {
      if matched.None? {
        return NO_RULE;
      }
      var rule := matched.value;
      var currentCount := GetCurrentUsage(redis, key, rule.windowSeconds, now, read);
      var allowed := currentCount < rule.requestsPerWindow;
      decision := Decision(allowed, currentCount, Max(0, rule.requestsPerWindow - currentCount),
                           if allowed then None else Some(Min(rule.windowSeconds, 60)), None);
    }

    /** Any number of undisturbed checks of one rule, one after the other, from sets that do not exist: their
        decisions are those of the two windows' runs. */
    method CheckAll(redis: Redis, rule: Rule, key: string, attempts: seq<Attempt>) returns (decisions: seq<Decision>)
      requires redis.At(key) == ABSENT && redis.At(key + ":burst") == ABSENT
      modifies redis
      ensures |decisions| == |attempts| && DecisionsOf(rule, attempts, decisions)
    {
      decisions := [];
      RunsStart(rule);
      for i := 0 to |attempts|
        invariant |decisions| == i
        invariant redis.At(key) == MainState(attempts[..i], rule).zset
        invariant HasBurst(rule) ==> redis.At(key + ":burst") == BurstState(attempts[..i], rule).zset
        invariant DecisionsOf(rule, attempts[..i], decisions)
      {
        var decision := CheckRateLimit(redis, Some(rule), key, attempts[i], Script, Script);
        NextAttempt(rule, attempts, i, decisions, decision);
        decisions := decisions + [decision];
      }
      assert attempts[..|attempts|] == attempts;
    }
  }

  function DryRunFrom(count: int, rule: Rule): Decision {
    var allowed := count < rule.requestsPerWindow;
    Decision(allowed, count, Max(0, rule.requestsPerWindow - count),
             if allowed then None else Some(Min(rule.windowSeconds, 60)), None)
  }

  function DryRunOf(z: ZSet, rule: Rule, now: int): Decision {
    DryRunFrom(Usage(z, now, rule.windowSeconds).count, rule)
  }

  /** What the enforcer would decide at `now` from the sets it would find. */
  function EnforceOf(main: ZSet, burst: ZSet, rule: Rule, now: int, burstNow: int,
                     member: string, burstMember: string): Decision
  {
    var m := Check(main, now, rule.windowSeconds, rule.requestsPerWindow, member);
    if HasBurst(rule) then
      var b := Check(burst, burstNow, rule.burstWindowSeconds.value, rule.burstLimit.value, burstMember);
      Decide(rule, m.count, m.allowed, b.count, b.allowed)
    else
      Decide(rule, m.count, m.allowed, 0, true)
  }

  /** Whether there is room in the burst window, which no rule without both settings has. */
  predicate BurstHasRoom(rule: Rule, burst: ZSet, burstNow: int) {
    match (rule.burstLimit, rule.burstWindowSeconds)
    case (Some(limit), Some(seconds)) =>
      limit == 0 || seconds == 0 || Usage(burst, burstNow, seconds).count < limit
    case _ => true
  }

  /** What the enforcer answers, from the settings of the rule and the usage of its two windows. */
  lemma EnforceAllowsIff(main: ZSet, burst: ZSet, rule: Rule, now: int, burstNow: int,
                         member: string, burstMember: string)
    ensures var used := Usage(main, now, rule.windowSeconds).count;
            var room := used < rule.requestsPerWindow && BurstHasRoom(rule, burst, burstNow);
            var decision := EnforceOf(main, burst, rule, now, burstNow, member, burstMember);
            && (decision.allowed <==> room || rule.action != Reject)
            && (decision.retryAfter.None? <==> room)
            && decision.currentCount == (if used < rule.requestsPerWindow then used + 1 else used)
            && decision.remaining == Max(0, rule.requestsPerWindow - decision.currentCount)
  {
  }

  /** A rejecting rule turns a request away once its burst window is full, however empty the main one is. */
  lemma FullBurstRejects(main: ZSet, burst: ZSet, rule: Rule, now: int, burstNow: int,
                         member: string, burstMember: string)
    requires rule.action == Reject && rule.burstLimit.Some? && rule.burstWindowSeconds.Some?
    requires rule.burstLimit.value != 0 && rule.burstWindowSeconds.value != 0
    requires Usage(burst, burstNow, rule.burstWindowSeconds.value).count >= rule.burstLimit.value
    ensures var decision := EnforceOf(main, burst, rule, now, burstNow, member, burstMember);
            !decision.allowed && decision.retryAfter == Some(Min(rule.windowSeconds, 60))
            && decision.burstRemaining == Some(0)
  {
  }

  /** A rule without burst that rejects: the dry run allows exactly what the enforcer would allow. */
  lemma DryRunAgreesWithoutBurst(main: ZSet, burst: ZSet, rule: Rule, now: int,
                                 burstNow: int, member: string, burstMember: string)
    requires !HasBurst(rule) && rule.action == Reject
    ensures DryRunOf(main, rule, now).allowed
         == EnforceOf(main, burst, rule, now, burstNow, member, burstMember).allowed
    ensures DryRunOf(main, rule, now).retryAfter
         == EnforceOf(main, burst, rule, now, burstNow, member, burstMember).retryAfter
  {
  }

  /** For any rule, the dry run agrees exactly when the burst window would not decide the matter and a
      full main window really rejects. */
  lemma DryRunAgreesIff(main: ZSet, burst: ZSet, rule: Rule, now: int, burstNow: int,
                       member: string, burstMember: string)
    ensures (DryRunOf(main, rule, now).allowed
             == EnforceOf(main, burst, rule, now, burstNow, member, burstMember).allowed)
       <==> if Usage(main, now, rule.windowSeconds).count < rule.requestsPerWindow then
              rule.action != Reject || !HasBurst(rule) ||
              Usage(burst, burstNow, rule.burstWindowSeconds.value).count < rule.burstLimit.value
            else rule.action == Reject
  {
  }

  /** Two disagreements: a dry run allows what a full burst window then rejects; and it rejects what a rule
      that only logs then allows. */
  lemma DryRunDisagrees(burst: ZSet)
    ensures var rule := Rule(60, 10, Some(1), Some(10), Reject);
            var full := ZSet(map["m" := 1000], Some(100000));
            && DryRunOf(ABSENT, rule, 2000).allowed
            && !EnforceOf(ABSENT, full, rule, 2000, 2000, "a", "b").allowed
    ensures var rule := Rule(60, 1, None, None, LogOnly);
            var full := ZSet(map["m" := 1000], Some(100000));
            && !DryRunOf(full, rule, 2000).allowed
            && EnforceOf(full, burst, rule, 2000, 2000, "a", "b").allowed
  {
    var full := ZSet(map["m" := 1000], Some(100000));
    UnprunedIsFull(full, 2000, -8000);
    UnprunedIsFull(full, 2000, -58000);
    assert |full.entries| == 1;
    assert ZRemRangeByScore(ABSENT, -58000) == ABSENT;
  }

  lemma UnprunedIsFull(z: ZSet, now: int, max: int)
    requires z.entries != map[] && forall m :: m in z.entries ==> z.entries[m] > max
    requires z.expireAt.None? || z.expireAt.value > now
    ensures ZRemRangeByScore(Live(z, now), max) == z
  {
    assert (map m | m in z.entries && z.entries[m] > max :: z.entries[m]) == z.entries;
  }

  /** Over whole runs: after any requests and queries, a dry run of a rejecting rule without burst says at
      time t what the enforcer then answers at t, which is whether fewer than the limit of the requests
      let through so far lie in the window before t. */
  lemma {:induction false} DryRunForetells(events: seq<Event>, rule: Rule, e: Event)
    requires !HasBurst(rule) && rule.action == Reject && e.Request? && Ordered(events + [e])
    ensures var window, limit := rule.windowSeconds, rule.requestsPerWindow;
            var says, answers := DryRunOf(Run(events, window, limit).zset, rule, e.time).allowed,
                                 Run(events + [e], window, limit).answers;
            && answers != [] && answers[|answers| - 1].Decided?
            && says == answers[|answers| - 1].allowed
            && says == (CountIn(IdealRun(events, window, limit).log, e.time - window * 1000, e.time) < limit)
  {
    var window, limit := rule.windowSeconds, rule.requestsPerWindow;
    DryRunAfterRun(events, rule, e);
    LastAnswer(events, e, window, limit);
  }

  lemma {:induction false} DryRunAfterRun(events: seq<Event>, rule: Rule, e: Event)
    requires Ordered(events + [e])
    ensures var window, limit, now := rule.windowSeconds, rule.requestsPerWindow, e.time;
            DryRunOf(Run(events, window, limit).zset, rule, now).allowed
            == (CountIn(IdealRun(events, window, limit).log, now - window * 1000, now) < limit)
  {
    OrderedInit(events, e);
    UsageAfterRun(events, e.time, rule.windowSeconds, rule.requestsPerWindow);
  }

  lemma {:induction false} LastAnswer(events: seq<Event>, e: Event, windowSeconds: int, limit: int)
    requires e.Request? && Ordered(events + [e])
    ensures var answers := Run(events + [e], windowSeconds, limit).answers;
            && answers != [] && answers[|answers| - 1].Decided?
            && answers[|answers| - 1].allowed
               == (CountIn(IdealRun(events, windowSeconds, limit).log, e.time - windowSeconds * 1000, e.time) < limit)
  {
    RunIsExact(events + [e], windowSeconds, limit);
    assert (events + [e])[..|events + [e]| - 1] == events;
  }

  lemma OrderedInit(events: seq<Event>, e: Event)
    requires Ordered(events + [e])
    ensures Ordered(events) && (events != [] ==> events[|events| - 1].time <= e.time)
  {
    var all := events + [e];
    assert forall i :: 0 <= i < |events| ==> all[i] == events[i];
    assert events != [] ==> all[|events| - 1].time <= all[|events|].time;
  }

  /** A usage count after a run is the count of the full log. */
  lemma UsageAfterRun(events: seq<Event>, now: int, windowSeconds: int, limit: int)
    requires Ordered(events) && (events != [] ==> events[|events| - 1].time <= now)
    ensures Usage(Run(events, windowSeconds, limit).zset, now, windowSeconds).count
         == CountIn(IdealRun(events, windowSeconds, limit).log, now - windowSeconds * 1000, now)
  {
    var s := Run(events, windowSeconds, limit);
    RunIsExact(events, windowSeconds, limit);
    if events != [] {
      RunIsFaithful(events, windowSeconds, limit);
      UsageIsExact(s.zset, s.log, events[|events| - 1].time, now, windowSeconds);
    } else {
      UsageIsExact(s.zset, s.log, now, now, windowSeconds);
    }
  }

  // ---------------------------------------------------------------------------
  // Whole runs of a rejecting rule with a burst window
  // ---------------------------------------------------------------------------

  datatype Attempt = Attempt(time: int, member: string, burstTime: int, burstMember: string)

  function MainEvents(attempts: seq<Attempt>): (events: seq<Event>)
    ensures |events| == |attempts|
    ensures forall i :: 0 <= i < |events| ==> events[i] == Request(attempts[i].member, attempts[i].time)
  {
    seq(|attempts|, i requires 0 <= i < |attempts| => Request(attempts[i].member, attempts[i].time))
  }

  function BurstEvents(attempts: seq<Attempt>): (events: seq<Event>)
    ensures |events| == |attempts|
    ensures forall i :: 0 <= i < |events| ==> events[i] == Request(attempts[i].burstMember, attempts[i].burstTime)
  {
    seq(|attempts|, i requires 0 <= i < |attempts| => Request(attempts[i].burstMember, attempts[i].burstTime))
  }

  function MainState(attempts: seq<Attempt>, rule: Rule): State {
    Run(MainEvents(attempts), rule.windowSeconds, rule.requestsPerWindow)
  }

  function BurstState(attempts: seq<Attempt>, rule: Rule): State
    requires HasBurst(rule)
  {
    Run(BurstEvents(attempts), rule.burstWindowSeconds.value, rule.burstLimit.value)
  }

  function MainAnswers(attempts: seq<Attempt>, rule: Rule): seq<Answer> {
    MainState(attempts, rule).answers
  }

  function BurstAnswers(attempts: seq<Attempt>, rule: Rule): seq<Answer>
    requires HasBurst(rule)
  {
    BurstState(attempts, rule).answers
  }

  ghost predicate Answered(answers: seq<Answer>, n: nat) {
    |answers| == n && forall i :: 0 <= i < n ==> answers[i].Decided?
  }

  /** Each decision is made from the answers of its attempt in the runs of the two windows. */
  ghost predicate DecisionsOf(rule: Rule, attempts: seq<Attempt>, decisions: seq<Decision>) {
    var main := MainAnswers(attempts, rule);
    && Answered(main, |attempts|) && |decisions| == |attempts|
    && (HasBurst(rule) ==>
          var burst := BurstAnswers(attempts, rule);
          && Answered(burst, |attempts|)
          && forall i :: 0 <= i < |attempts| ==>
               decisions[i] == Decide(rule, main[i].count, main[i].allowed, burst[i].count, burst[i].allowed))
    && (!HasBurst(rule) ==>
          forall i :: 0 <= i < |attempts| ==> decisions[i] == Decide(rule, main[i].count, main[i].allowed, 0, true))
  }

  lemma RunsStart(rule: Rule)
    ensures MainState([], rule) == State(ABSENT, [], [])
    ensures HasBurst(rule) ==> BurstState([], rule) == State(ABSENT, [], [])
    ensures DecisionsOf(rule, [], [])
  {
  }

  /** One more check appends its answer to the run of its window. */
  lemma RunNext(events: seq<Event>, e: Event, windowSeconds: int, limit: int)
    requires e.Request?
    ensures var s := Run(events, windowSeconds, limit);
            var c := Check(s.zset, e.time, windowSeconds, limit, e.member);
            && Run(events + [e], windowSeconds, limit).zset == c.zset
            && Run(events + [e], windowSeconds, limit).answers == s.answers + [Decided(c.allowed, c.count)]
  {
    assert (events + [e])[..|events + [e]| - 1] == events;
  }

  function MainCheck(rule: Rule, earlier: seq<Attempt>, a: Attempt): Checked {
    Check(MainState(earlier, rule).zset, a.time, rule.windowSeconds, rule.requestsPerWindow, a.member)
  }

  function BurstCheck(rule: Rule, earlier: seq<Attempt>, a: Attempt): Checked
    requires HasBurst(rule)
  {
    Check(BurstState(earlier, rule).zset, a.burstTime, rule.burstWindowSeconds.value, rule.burstLimit.value,
          a.burstMember)
  }

  lemma NextMain(rule: Rule, attempts: seq<Attempt>, i: nat)
    requires i < |attempts|
    ensures var c := MainCheck(rule, attempts[..i], attempts[i]);
            && MainState(attempts[..i + 1], rule).zset == c.zset
            && MainAnswers(attempts[..i + 1], rule) == MainAnswers(attempts[..i], rule) + [Decided(c.allowed, c.count)]
  {
    var e := Request(attempts[i].member, attempts[i].time);
    assert MainEvents(attempts[..i + 1]) == MainEvents(attempts[..i]) + [e];
    RunNext(MainEvents(attempts[..i]), e, rule.windowSeconds, rule.requestsPerWindow);
  }

  lemma NextBurst(rule: Rule, attempts: seq<Attempt>, i: nat)
    requires i < |attempts| && HasBurst(rule)
    ensures var c := BurstCheck(rule, attempts[..i], attempts[i]);
            && BurstState(attempts[..i + 1], rule).zset == c.zset
            && BurstAnswers(attempts[..i + 1], rule)
               == BurstAnswers(attempts[..i], rule) + [Decided(c.allowed, c.count)]
  {
    var e := Request(attempts[i].burstMember, attempts[i].burstTime);
    assert BurstEvents(attempts[..i + 1]) == BurstEvents(attempts[..i]) + [e];
    RunNext(BurstEvents(attempts[..i]), e, rule.burstWindowSeconds.value, rule.burstLimit.value);
  }

  /** One more decision, made from one more answer of each window. */
  lemma DecisionsExtend(rule: Rule, earlier: seq<Attempt>, all: seq<Attempt>, decisions: seq<Decision>, m: Answer,
                        b: Answer)
    requires DecisionsOf(rule, earlier, decisions) && |all| == |earlier| + 1 && m.Decided? && b.Decided?
    requires MainAnswers(all, rule) == MainAnswers(earlier, rule) + [m]
    requires HasBurst(rule) ==> BurstAnswers(all, rule) == BurstAnswers(earlier, rule) + [b]
    ensures !HasBurst(rule) ==> DecisionsOf(rule, all, decisions + [Decide(rule, m.count, m.allowed, 0, true)])
    ensures HasBurst(rule) ==>
              DecisionsOf(rule, all, decisions + [Decide(rule, m.count, m.allowed, b.count, b.allowed)])
  {
  }

  lemma NextAttempt(rule: Rule, attempts: seq<Attempt>, i: nat, decisions: seq<Decision>, decision: Decision)
    requires i < |attempts| && DecisionsOf(rule, attempts[..i], decisions)
    requires var main := MainCheck(rule, attempts[..i], attempts[i]);
             decision == if HasBurst(rule)
                         then var burst := BurstCheck(rule, attempts[..i], attempts[i]);
                              Decide(rule, main.count, main.allowed, burst.count, burst.allowed)
                         else Decide(rule, main.count, main.allowed, 0, true)
    ensures DecisionsOf(rule, attempts[..i + 1], decisions + [decision])
    ensures MainState(attempts[..i + 1], rule).zset == MainCheck(rule, attempts[..i], attempts[i]).zset
    ensures HasBurst(rule) ==>
              BurstState(attempts[..i + 1], rule).zset == BurstCheck(rule, attempts[..i], attempts[i]).zset
  {
    var main := MainCheck(rule, attempts[..i], attempts[i]);
    var m, b := Decided(main.allowed, main.count), Decided(true, 0);
    NextMain(rule, attempts, i);
    if HasBurst(rule) {
      var burst := BurstCheck(rule, attempts[..i], attempts[i]);
      b := Decided(burst.allowed, burst.count);
      NextBurst(rule, attempts, i);
    }
    DecisionsExtend(rule, attempts[..i], attempts[..i + 1], decisions, m, b);
  }

  predicate LetThrough(rule: Rule, main: Answer, burst: Answer) {
    main.Decided? && burst.Decided? && Decide(rule, main.count, main.allowed, burst.count, burst.allowed).allowed
  }

  /** The attempts the enforcer lets through, given how each window's own check answered. */
  function Admitted(rule: Rule, attempts: seq<Attempt>, main: seq<Answer>, burst: seq<Answer>): seq<Attempt>
    requires |main| == |burst| == |attempts|
  {
    if attempts == [] then []
    else
      var n := |attempts| - 1;
      Admitted(rule, attempts[..n], main[..n], burst[..n]) +
      if LetThrough(rule, main[n], burst[n]) then [attempts[n]] else []
  }

  function CountTimes(attempts: seq<Attempt>, from: int, to: int): nat {
    if attempts == [] then 0
    else CountTimes(attempts[..|attempts| - 1], from, to) + if from < attempts[|attempts| - 1].time <= to then 1 else 0
  }

  function CountBurstTimes(attempts: seq<Attempt>, from: int, to: int): nat {
    if attempts == [] then 0
    else (if from < attempts[|attempts| - 1].burstTime <= to then 1 else 0)
         + CountBurstTimes(attempts[..|attempts| - 1], from, to)
  }

  lemma CountInAppend(log: seq<Admission>, a: Admission, from: int, to: int)
    ensures CountIn(log + [a], from, to) == CountIn(log, from, to) + if from < a.time <= to then 1 else 0
  {
    assert (log + [a])[..|log + [a]| - 1] == log;
  }

  lemma CountAppend(attempts: seq<Attempt>, a: Attempt, from: int, to: int)
    ensures CountTimes(attempts + [a], from, to)
         == CountTimes(attempts, from, to) + if from < a.time <= to then 1 else 0
    ensures CountBurstTimes(attempts + [a], from, to)
         == CountBurstTimes(attempts, from, to) + if from < a.burstTime <= to then 1 else 0
  {
    assert (attempts + [a])[..|attempts + [a]| - 1] == attempts;
  }

  lemma {:induction false} AdmittedLast(rule: Rule, attempts: seq<Attempt>, main: seq<Answer>, burst: seq<Answer>)
      returns (extra: seq<Attempt>, extraMain: seq<Admission>, extraBurst: seq<Admission>)
    requires HasBurst(rule) && rule.action == Reject && |main| == |burst| == |attempts| && attempts != []
    ensures var n := |attempts| - 1;
            && Admitted(rule, attempts, main, burst) == Admitted(rule, attempts[..n], main[..n], burst[..n]) + extra
            && AdmittedLog(MainEvents(attempts), main) == AdmittedLog(MainEvents(attempts[..n]), main[..n]) + extraMain
            && AdmittedLog(BurstEvents(attempts), burst)
               == AdmittedLog(BurstEvents(attempts[..n]), burst[..n]) + extraBurst
            && (extraMain == [] || extraMain == [Admission(attempts[n].member, attempts[n].time)])
            && (extraBurst == [] || extraBurst == [Admission(attempts[n].burstMember, attempts[n].burstTime)])
            && (extra == [] || (extra == [attempts[n]] && extraMain != [] && extraBurst != []))
  {
    var n := |attempts| - 1;
    var a := attempts[n];
    assert MainEvents(attempts)[..n] == MainEvents(attempts[..n]);
    assert BurstEvents(attempts)[..n] == BurstEvents(attempts[..n]);
    extra := if LetThrough(rule, main[n], burst[n]) then [a] else [];
    extraMain := if main[n].Decided? && main[n].allowed then [Admission(a.member, a.time)] else [];
    extraBurst := if burst[n].Decided? && burst[n].allowed then [Admission(a.burstMember, a.burstTime)] else [];
  }

  /** Under a rejecting rule with a burst window, what is let through passed the main check. */
  lemma {:induction false} AdmittedWithinMain(rule: Rule, attempts: seq<Attempt>, main: seq<Answer>, burst: seq<Answer>,
                                              from: int, to: int)
    requires HasBurst(rule) && rule.action == Reject && |main| == |burst| == |attempts|
    ensures CountTimes(Admitted(rule, attempts, main, burst), from, to)
         <= CountIn(AdmittedLog(MainEvents(attempts), main), from, to)
  {
    if attempts != [] {
      var n := |attempts| - 1;
      AdmittedWithinMain(rule, attempts[..n], main[..n], burst[..n], from, to);
      var extra, extraMain, _ := AdmittedLast(rule, attempts, main, burst);
      CountExtra(Admitted(rule, attempts[..n], main[..n], burst[..n]), extra, attempts[n], from, to);
      LogExtra(AdmittedLog(MainEvents(attempts[..n]), main[..n]), extraMain,
               Admission(attempts[n].member, attempts[n].time), from, to);
    }
  }

  /** ... and the burst check. */
  lemma {:induction false} AdmittedWithinBurst(rule: Rule, attempts: seq<Attempt>, main: seq<Answer>,
                                               burst: seq<Answer>,
                                               from: int, to: int)
    requires HasBurst(rule) && rule.action == Reject && |main| == |burst| == |attempts|
    ensures CountBurstTimes(Admitted(rule, attempts, main, burst), from, to)
         <= CountIn(AdmittedLog(BurstEvents(attempts), burst), from, to)
  {
    if attempts != [] {
      var n := |attempts| - 1;
      AdmittedWithinBurst(rule, attempts[..n], main[..n], burst[..n], from, to);
      var extra, _, extraBurst := AdmittedLast(rule, attempts, main, burst);
      CountExtra(Admitted(rule, attempts[..n], main[..n], burst[..n]), extra, attempts[n], from, to);
      LogExtra(AdmittedLog(BurstEvents(attempts[..n]), burst[..n]), extraBurst,
               Admission(attempts[n].burstMember, attempts[n].burstTime), from, to);
    }
  }

  lemma CountExtra(s: seq<Attempt>, extra: seq<Attempt>, a: Attempt, from: int, to: int)
    requires extra == [] || extra == [a]
    ensures CountTimes(s + extra, from, to)
         == CountTimes(s, from, to) + if extra != [] && from < a.time <= to then 1 else 0
    ensures CountBurstTimes(s + extra, from, to)
         == CountBurstTimes(s, from, to) + if extra != [] && from < a.burstTime <= to then 1 else 0
  {
    CountAppend(s, a, from, to);
    assert s + [] == s;
  }

  lemma LogExtra(log: seq<Admission>, extra: seq<Admission>, a: Admission, from: int, to: int)
    requires extra == [] || extra == [a]
    ensures CountIn(log + extra, from, to)
         == CountIn(log, from, to) + if extra != [] && from < a.time <= to then 1 else 0
  {
    CountInAppend(log, a, from, to);
    assert log + [] == log;
  }

  lemma IdealMainWindow(attempts: seq<Attempt>, rule: Rule, main: seq<Answer>, burst: seq<Answer>, end: int)
    requires HasBurst(rule) && rule.action == Reject && Ordered(MainEvents(attempts)) && |burst| == |attempts|
    requires main == IdealRun(MainEvents(attempts), rule.windowSeconds, rule.requestsPerWindow).answers
    ensures |main| == |attempts|
    ensures CountTimes(Admitted(rule, attempts, main, burst), end - rule.windowSeconds * 1000, end)
         <= Max(0, rule.requestsPerWindow)
  {
    IdealLog(MainEvents(attempts), rule.windowSeconds, rule.requestsPerWindow);
    AdmittedWithinMain(rule, attempts, main, burst, end - rule.windowSeconds * 1000, end);
    IdealBound(MainEvents(attempts), rule.windowSeconds, rule.requestsPerWindow, end);
  }

  lemma IdealBurstWindow(attempts: seq<Attempt>, rule: Rule, main: seq<Answer>, burst: seq<Answer>, end: int)
    requires HasBurst(rule) && rule.action == Reject && Ordered(BurstEvents(attempts)) && |main| == |attempts|
    requires burst == IdealRun(BurstEvents(attempts), rule.burstWindowSeconds.value, rule.burstLimit.value).answers
    ensures |burst| == |attempts|
    ensures CountBurstTimes(Admitted(rule, attempts, main, burst), end - rule.burstWindowSeconds.value * 1000, end)
         <= Max(0, rule.burstLimit.value)
  {
    IdealLog(BurstEvents(attempts), rule.burstWindowSeconds.value, rule.burstLimit.value);
    AdmittedWithinBurst(rule, attempts, main, burst, end - rule.burstWindowSeconds.value * 1000, end);
    IdealBound(BurstEvents(attempts), rule.burstWindowSeconds.value, rule.burstLimit.value, end);
  }

  lemma AnswersAreIdeal(attempts: seq<Attempt>, rule: Rule)
    requires HasBurst(rule) && Ordered(MainEvents(attempts)) && Ordered(BurstEvents(attempts))
    ensures MainAnswers(attempts, rule)
         == IdealRun(MainEvents(attempts), rule.windowSeconds, rule.requestsPerWindow).answers
    ensures BurstAnswers(attempts, rule)
         == IdealRun(BurstEvents(attempts), rule.burstWindowSeconds.value, rule.burstLimit.value).answers
  {
    RunIsExact(MainEvents(attempts), rule.windowSeconds, rule.requestsPerWindow);
    RunIsExact(BurstEvents(attempts), rule.burstWindowSeconds.value, rule.burstLimit.value);
  }

  /** A rejecting rule with a burst window keeps both bounds in every interval of either length. */
  lemma BothWindowsHold(attempts: seq<Attempt>, rule: Rule, end: int)
    requires HasBurst(rule) && rule.action == Reject
    requires Ordered(MainEvents(attempts)) && Ordered(BurstEvents(attempts))
    ensures |MainAnswers(attempts, rule)| == |BurstAnswers(attempts, rule)| == |attempts|
    ensures var admitted := Admitted(rule, attempts, MainAnswers(attempts, rule), BurstAnswers(attempts, rule));
            && CountTimes(admitted, end - rule.windowSeconds * 1000, end) <= Max(0, rule.requestsPerWindow)
            && CountBurstTimes(admitted, end - rule.burstWindowSeconds.value * 1000, end)
               <= Max(0, rule.burstLimit.value)
  {
    var main, burst := MainAnswers(attempts, rule), BurstAnswers(attempts, rule);
    AnswersAreIdeal(attempts, rule);
    IdealLog(BurstEvents(attempts), rule.burstWindowSeconds.value, rule.burstLimit.value);
    IdealMainWindow(attempts, rule, main, burst, end);
    IdealBurstWindow(attempts, rule, main, burst, end);
  }

  lemma {:induction false} IdealLast(events: seq<Event>, windowSeconds: int, limit: int)
    requires events != [] && events[|events| - 1].Request?
    ensures var n, now := |events| - 1, events[|events| - 1].time;
            var answers := IdealRun(events, windowSeconds, limit).answers;
            && |answers| == |events| && answers[n].Decided?
            && (answers[n].allowed <==>
                CountIn(IdealRun(events[..n], windowSeconds, limit).log, now - windowSeconds * 1000, now) < limit)
  {
    var init, e := events[..|events| - 1], events[|events| - 1];
    IdealLog(init, windowSeconds, limit);
    IdealAnswer(IdealRun(init, windowSeconds, limit), e, windowSeconds, limit);
  }

  lemma IdealAnswer(s: Ideal, e: Event, windowSeconds: int, limit: int)
    requires e.Request?
    ensures var answers := IdealStep(s, e, windowSeconds, limit).answers;
            && |answers| == |s.answers| + 1 && answers[|s.answers|].Decided?
            && (answers[|s.answers|].allowed <==> CountIn(s.log, e.time - windowSeconds * 1000, e.time) < limit)
  {
  }

  /** The log of the requests that passed the main check before the last attempt; likewise for burst. */
  function MainLog(attempts: seq<Attempt>, rule: Rule): seq<Admission> {
    IdealRun(MainEvents(attempts), rule.windowSeconds, rule.requestsPerWindow).log
  }

  function BurstLog(attempts: seq<Attempt>, rule: Rule): seq<Admission>
    requires HasBurst(rule)
  {
    IdealRun(BurstEvents(attempts), rule.burstWindowSeconds.value, rule.burstLimit.value).log
  }

  lemma {:induction false} MainLast(attempts: seq<Attempt>, rule: Rule, a: Attempt)
    requires HasBurst(rule) && Ordered(MainEvents(attempts + [a])) && Ordered(BurstEvents(attempts + [a]))
    ensures |MainAnswers(attempts + [a], rule)| == |attempts| + 1
    ensures MainAnswers(attempts + [a], rule)[|attempts|].Decided?
    ensures MainAnswers(attempts + [a], rule)[|attempts|].allowed <==>
            CountIn(MainLog(attempts, rule), a.time - rule.windowSeconds * 1000, a.time) < rule.requestsPerWindow
  {
    AnswersAreIdeal(attempts + [a], rule);
    assert MainEvents(attempts + [a])[..|attempts|] == MainEvents(attempts);
    IdealLast(MainEvents(attempts + [a]), rule.windowSeconds, rule.requestsPerWindow);
  }

  lemma {:induction false} BurstLast(attempts: seq<Attempt>, rule: Rule, a: Attempt)
    requires HasBurst(rule) && Ordered(MainEvents(attempts + [a])) && Ordered(BurstEvents(attempts + [a]))
    ensures |BurstAnswers(attempts + [a], rule)| == |attempts| + 1
    ensures BurstAnswers(attempts + [a], rule)[|attempts|].Decided?
    ensures BurstAnswers(attempts + [a], rule)[|attempts|].allowed <==>
            CountIn(BurstLog(attempts, rule), a.burstTime - rule.burstWindowSeconds.value * 1000, a.burstTime)
            < rule.burstLimit.value
  {
    AnswersAreIdeal(attempts + [a], rule);
    assert BurstEvents(attempts + [a])[..|attempts|] == BurstEvents(attempts);
    IdealLast(BurstEvents(attempts + [a]), rule.burstWindowSeconds.value, rule.burstLimit.value);
  }

  /** An attempt gets through exactly when each window has room for it, counting every earlier attempt
      that passed that window's own check, including those the other window turned away. */
  lemma LetThroughIff(attempts: seq<Attempt>, rule: Rule, a: Attempt)
    requires HasBurst(rule) && rule.action == Reject
    requires Ordered(MainEvents(attempts + [a])) && Ordered(BurstEvents(attempts + [a]))
    ensures |MainAnswers(attempts + [a], rule)| == |BurstAnswers(attempts + [a], rule)| == |attempts| + 1
    ensures LetThrough(rule, MainAnswers(attempts + [a], rule)[|attempts|],
                       BurstAnswers(attempts + [a], rule)[|attempts|])
            <==>
            && CountIn(MainLog(attempts, rule), a.time - rule.windowSeconds * 1000, a.time) < rule.requestsPerWindow
            && CountIn(BurstLog(attempts, rule), a.burstTime - rule.burstWindowSeconds.value * 1000, a.burstTime)
               < rule.burstLimit.value
  {
    MainLast(attempts, rule, a);
    BurstLast(attempts, rule, a);
  }
}
