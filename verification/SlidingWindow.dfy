/** The sliding-window check over one sorted set, against the full log of what it admitted. */
module SlidingWindow {
  import opened Common

  /** A sorted set with its key's time to live. Times are milliseconds on one clock; an empty set is
      an absent key. */
  datatype ZSet = ZSet(entries: map<string, int>, expireAt: Option<int>)

  const ABSENT := ZSet(map[], None)
  const EXPIRY_BUFFER_SECONDS := 60

  function Live(z: ZSet, now: int): ZSet {
    if z.expireAt.Some? && z.expireAt.value <= now then ABSENT else z
  }

  function ZRemRangeByScore(z: ZSet, max: int): ZSet {
    var left := map m | m in z.entries && z.entries[m] > max :: z.entries[m];
    if left == map[] then ABSENT else z.(entries := left)
  }

  function ZAdd(z: ZSet, member: string, score: int): ZSet {
    z.(entries := z.entries[member := score])
  }

  function Expire(z: ZSet, now: int, seconds: int): ZSet {
    z.(expireAt := Some(now + seconds * 1000))
  }

  datatype Checked = Checked(zset: ZSet, count: int, allowed: bool)

  /** The script: drop what has left the window, count, and add the request if there is room. */
  function Check(z: ZSet, now: int, windowSeconds: int, limit: int, member: string): Checked {
    var pruned := ZRemRangeByScore(Live(z, now), now - windowSeconds * 1000);
    var count := |pruned.entries|;
    if count < limit then
      Checked(Expire(ZAdd(pruned, member, now), now, windowSeconds + EXPIRY_BUFFER_SECONDS), count + 1, true)
    else
      Checked(pruned, count, false)
  }

  /** A usage query: it prunes and counts, and adds nothing. */
  function Usage(z: ZSet, now: int, windowSeconds: int): Checked {
    var pruned := ZRemRangeByScore(Live(z, now), now - windowSeconds * 1000);
    Checked(pruned, |pruned.entries|, false)
  }

  // ---------------------------------------------------------------------------
  // The log of admissions
  // ---------------------------------------------------------------------------

  datatype Admission = Admission(member: string, time: int)

  /** The number of admissions with from < time <= to. */
  function CountIn(log: seq<Admission>, from: int, to: int): nat {
    if log == [] then 0
    else (if from < log[|log| - 1].time <= to then 1 else 0) + CountIn(log[..|log| - 1], from, to)
  }

  ghost predicate DistinctMembers(log: seq<Admission>) {
    forall i, j :: 0 <= i < j < |log| ==> log[i].member != log[j].member
  }

  ghost function MembersIn(log: seq<Admission>, from: int, to: int): set<string> {
    if log == [] then {}
    else
      var last := log[|log| - 1];
      MembersIn(log[..|log| - 1], from, to) + if from < last.time <= to then {last.member} else {}
  }

  lemma {:induction false} MembersOf(log: seq<Admission>, from: int, to: int, m: string)
    ensures m in MembersIn(log, from, to) <==> exists a :: a in log && from < a.time <= to && a.member == m
  {
    if log != [] {
      var init, last := log[..|log| - 1], log[|log| - 1];
      MembersOf(init, from, to, m);
      assert last in log && forall a :: a in log <==> a in init || a == last;
    }
  }

  lemma {:induction false} MembersCount(log: seq<Admission>, from: int, to: int)
    requires DistinctMembers(log)
    ensures |MembersIn(log, from, to)| == CountIn(log, from, to)
  {
    if log != [] {
      var init, last := log[..|log| - 1], log[|log| - 1];
      MembersCount(init, from, to);
      MembersOf(init, from, to, last.member);
      assert last.member !in MembersIn(init, from, to);
    }
  }

  /** The set holds every admission of the current window, nothing that was not admitted, and cannot
      expire while any admission could still matter. */
  ghost predicate Faithful(z: ZSet, log: seq<Admission>, now: int, windowSeconds: int) {
    && DistinctMembers(log)
    && (forall a :: a in log ==> a.time <= now)
    && (forall m :: m in z.entries ==> Admission(m, z.entries[m]) in log)
    && (forall a :: a in log && a.time > now - windowSeconds * 1000 ==>
          a.member in z.entries && z.entries[a.member] == a.time)
    && (z.expireAt.Some? ==>
          forall a :: a in log ==> a.time + (windowSeconds + EXPIRY_BUFFER_SECONDS) * 1000 <= z.expireAt.value)
  }

  lemma {:induction false} PrunedIsFaithful(z: ZSet, log: seq<Admission>, was: int, now: int, windowSeconds: int)
    requires Faithful(z, log, was, windowSeconds) && was <= now
    ensures Faithful(ZRemRangeByScore(Live(z, now), now - windowSeconds * 1000), log, now, windowSeconds)
  {
    var p := ZRemRangeByScore(Live(z, now), now - windowSeconds * 1000);
    forall a | a in log && a.time > now - windowSeconds * 1000
      ensures a.member in p.entries && p.entries[a.member] == a.time
    {
      assert Live(z, now) == z;
    }
  }

  /** A faithful set without old entries is the window of the log. */
  lemma {:induction false} FaithfulCounts(p: ZSet, log: seq<Admission>, now: int, windowSeconds: int)
    requires Faithful(p, log, now, windowSeconds)
    requires forall m :: m in p.entries ==> p.entries[m] > now - windowSeconds * 1000
    ensures |p.entries| == CountIn(log, now - windowSeconds * 1000, now)
  {
    var from := now - windowSeconds * 1000;
    forall m ensures m in p.entries <==> m in MembersIn(log, from, now) {
      MembersOf(log, from, now, m);
      if m in p.entries {
        assert Admission(m, p.entries[m]) in log;
      }
    }
    assert p.entries.Keys == MembersIn(log, from, now);
    MembersCount(log, from, now);
  }

  /** After expiry and pruning, the set is the window of the log. */
  lemma {:induction false} PrunedIsWindow(z: ZSet, log: seq<Admission>, was: int, now: int, windowSeconds: int)
    requires Faithful(z, log, was, windowSeconds) && was <= now
    ensures var p := ZRemRangeByScore(Live(z, now), now - windowSeconds * 1000);
            && Faithful(p, log, now, windowSeconds)
            && |p.entries| == CountIn(log, now - windowSeconds * 1000, now)
  {
    PrunedIsFaithful(z, log, was, now, windowSeconds);
    FaithfulCounts(ZRemRangeByScore(Live(z, now), now - windowSeconds * 1000), log, now, windowSeconds);
  }

  // ---------------------------------------------------------------------------
  // Whole runs on one key
  // ---------------------------------------------------------------------------

  datatype Event = Request(member: string, time: int) | UsageQuery(time: int)
  datatype Answer = Decided(allowed: bool, count: int) | Counted(count: int)

  ghost predicate Ordered(events: seq<Event>) {
    && (forall i, j :: 0 <= i < j < |events| ==> events[i].time <= events[j].time)
    && (forall i, j :: 0 <= i < j < |events| && events[i].Request? && events[j].Request? ==>
          events[i].member != events[j].member)
  }

  function Extended(log: seq<Admission>, member: string, time: int, allowed: bool): seq<Admission> {
    if allowed then log + [Admission(member, time)] else log
  }

  /** The sorted set after the events, with the admissions made and the answers given. */
  datatype State = State(zset: ZSet, log: seq<Admission>, answers: seq<Answer>)

  function Answered(s: State, member: string, time: int, c: Checked): State {
    State(c.zset, Extended(s.log, member, time, c.allowed), s.answers + [Decided(c.allowed, c.count)])
  }

  function Step(s: State, e: Event, windowSeconds: int, limit: int): State {
    match e
    case Request(member, time) => Answered(s, member, time, Check(s.zset, time, windowSeconds, limit, member))
    case UsageQuery(time) =>
      var c := Usage(s.zset, time, windowSeconds);
      State(c.zset, s.log, s.answers + [Counted(c.count)])
  }

  function Run(events: seq<Event>, windowSeconds: int, limit: int): State {
    if events == [] then State(ABSENT, [], [])
    else Step(Run(events[..|events| - 1], windowSeconds, limit), events[|events| - 1], windowSeconds, limit)
  }

  /** The intended limiter: no set, no expiry, only the full log. */
  datatype Ideal = Ideal(log: seq<Admission>, answers: seq<Answer>)

  function IdealStep(s: Ideal, e: Event, windowSeconds: int, limit: int): Ideal {
    var count := CountIn(s.log, e.time - windowSeconds * 1000, e.time);
    match e
    case Request(member, time) =>
      var allowed := count < limit;
      Ideal(Extended(s.log, member, time, allowed),
            s.answers + [Decided(allowed, if allowed then count + 1 else count)])
    case UsageQuery(_) => Ideal(s.log, s.answers + [Counted(count)])
  }

  function IdealRun(events: seq<Event>, windowSeconds: int, limit: int): Ideal {
    if events == [] then Ideal([], [])
    else IdealStep(IdealRun(events[..|events| - 1], windowSeconds, limit), events[|events| - 1], windowSeconds, limit)
  }

  ghost predicate LogFrom(log: seq<Admission>, events: seq<Event>) {
    forall a :: a in log ==> Request(a.member, a.time) in events
  }

  lemma AddIsFaithful(p: ZSet, log: seq<Admission>, now: int, windowSeconds: int, member: string)
    requires Faithful(p, log, now, windowSeconds)
    requires forall a :: a in log ==> a.member != member
    ensures Faithful(Expire(ZAdd(p, member, now), now, windowSeconds + EXPIRY_BUFFER_SECONDS),
                     log + [Admission(member, now)], now, windowSeconds)
  {
    var log' := log + [Admission(member, now)];
    assert forall a :: a in log' <==> a in log || a == Admission(member, now);
    forall i | 0 <= i < |log| ensures log[i].member != member {
      assert log[i] in log;
    }
  }

  lemma FreshMember(log: seq<Admission>, events: seq<Event>, e: Event)
    requires LogFrom(log, events) && Ordered(events + [e]) && e.Request?
    ensures forall a :: a in log ==> a.member != e.member
  {
    forall a | a in log ensures a.member != e.member {
      var i :| 0 <= i < |events| && events[i] == Request(a.member, a.time);
      assert (events + [e])[i] == events[i] && (events + [e])[|events|] == e;
    }
  }

  lemma LogFromAppend(log: seq<Admission>, events: seq<Event>, e: Event)
    requires LogFrom(log, events)
    ensures LogFrom(log, events + [e])
    ensures e.Request? ==> LogFrom(log + [Admission(e.member, e.time)], events + [e])
  {
    assert forall x :: x in events ==> x in events + [e];
    assert e in events + [e];
  }

  /** One check from a faithful set: it counts the window of the log, and stays faithful. */
  lemma CheckIsExact(z: ZSet, log: seq<Admission>, was: int, now: int, windowSeconds: int,
                                        limit: int, member: string)
    requires Faithful(z, log, was, windowSeconds) && was <= now
    requires forall a :: a in log ==> a.member != member
    ensures var c := Check(z, now, windowSeconds, limit, member);
            var count := CountIn(log, now - windowSeconds * 1000, now);
            && c.allowed == (count < limit)
            && c.count == (if count < limit then count + 1 else count)
            && Faithful(c.zset, Extended(log, member, now, c.allowed), now, windowSeconds)
  {
    PrunedIsWindow(z, log, was, now, windowSeconds);
    AddIsFaithful(ZRemRangeByScore(Live(z, now), now - windowSeconds * 1000), log, now, windowSeconds, member);
  }

  ghost predicate Fresh(log: seq<Admission>, e: Event) {
    e.Request? ==> forall a :: a in log ==> a.member != e.member
  }

  lemma AnsweredIsIdeal(s: State, e: Event, c: Checked, windowSeconds: int, limit: int)
    requires e.Request?
    requires var count := CountIn(s.log, e.time - windowSeconds * 1000, e.time);
             c.allowed == (count < limit) && c.count == if count < limit then count + 1 else count
    ensures var t := Answered(s, e.member, e.time, c);
            Ideal(t.log, t.answers) == IdealStep(Ideal(s.log, s.answers), e, windowSeconds, limit)
  {
  }

  lemma RequestIsExact(s: State, was: int, e: Event, windowSeconds: int, limit: int)
    requires Faithful(s.zset, s.log, was, windowSeconds) && was <= e.time && Fresh(s.log, e) && e.Request?
    ensures Faithful(Step(s, e, windowSeconds, limit).zset, Step(s, e, windowSeconds, limit).log, e.time, windowSeconds)
    ensures Ideal(Step(s, e, windowSeconds, limit).log, Step(s, e, windowSeconds, limit).answers)
         == IdealStep(Ideal(s.log, s.answers), e, windowSeconds, limit)
  {
    CheckIsExact(s.zset, s.log, was, e.time, windowSeconds, limit, e.member);
    AnsweredIsIdeal(s, e, Check(s.zset, e.time, windowSeconds, limit, e.member), windowSeconds, limit);
  }

  lemma UsageIsExact(z: ZSet, log: seq<Admission>, was: int, now: int, windowSeconds: int)
    requires Faithful(z, log, was, windowSeconds) && was <= now
    ensures Usage(z, now, windowSeconds).count == CountIn(log, now - windowSeconds * 1000, now)
    ensures Faithful(Usage(z, now, windowSeconds).zset, log, now, windowSeconds)
  {
    PrunedIsWindow(z, log, was, now, windowSeconds);
  }

  lemma QueryIsExact(s: State, was: int, e: Event, windowSeconds: int, limit: int)
    requires Faithful(s.zset, s.log, was, windowSeconds) && was <= e.time && e.UsageQuery?
    ensures Faithful(Step(s, e, windowSeconds, limit).zset, Step(s, e, windowSeconds, limit).log, e.time, windowSeconds)
    ensures Ideal(Step(s, e, windowSeconds, limit).log, Step(s, e, windowSeconds, limit).answers)
         == IdealStep(Ideal(s.log, s.answers), e, windowSeconds, limit)
  {
    UsageIsExact(s.zset, s.log, was, e.time, windowSeconds);
  }

  lemma StepIsExact(s: State, was: int, e: Event, windowSeconds: int, limit: int)
    requires Faithful(s.zset, s.log, was, windowSeconds) && was <= e.time && Fresh(s.log, e)
    ensures Faithful(Step(s, e, windowSeconds, limit).zset, Step(s, e, windowSeconds, limit).log, e.time, windowSeconds)
    ensures Ideal(Step(s, e, windowSeconds, limit).log, Step(s, e, windowSeconds, limit).answers)
         == IdealStep(Ideal(s.log, s.answers), e, windowSeconds, limit)
  {
    if e.Request? {
      RequestIsExact(s, was, e, windowSeconds, limit);
    } else {
      QueryIsExact(s, was, e, windowSeconds, limit);
    }
  }

  lemma StepLog(s: State, events: seq<Event>, e: Event, windowSeconds: int, limit: int)
    requires LogFrom(s.log, events)
    ensures LogFrom(Step(s, e, windowSeconds, limit).log, events + [e])
  {
    LogFromAppend(s.log, events, e);
  }

  lemma {:induction false} RunIsFaithful(events: seq<Event>, windowSeconds: int, limit: int)
    requires Ordered(events) && events != []
    ensures Faithful(Run(events, windowSeconds, limit).zset, Run(events, windowSeconds, limit).log,
                     events[|events| - 1].time, windowSeconds)
    ensures LogFrom(Run(events, windowSeconds, limit).log, events)
    ensures Ideal(Run(events, windowSeconds, limit).log, Run(events, windowSeconds, limit).answers)
         == IdealRun(events, windowSeconds, limit)
  {
    var init, e := events[..|events| - 1], events[|events| - 1];
    var s := Run(init, windowSeconds, limit);
    assert init + [e] == events;
    if init == [] {
      StepIsExact(s, e.time, e, windowSeconds, limit);
      StepLog(s, [], e, windowSeconds, limit);
    } else {
      RunIsFaithful(init, windowSeconds, limit);
      if e.Request? { FreshMember(s.log, init, e); }
      StepIsExact(s, init[|init| - 1].time, e, windowSeconds, limit);
      StepLog(s, init, e, windowSeconds, limit);
    }
  }

  /** For every run with non-decreasing times, the atomic check answers as the ideal limiter does: it
      admits a request at time t exactly when fewer than `limit` earlier admissions lie in (t-W, t]. */
  lemma RunIsExact(events: seq<Event>, windowSeconds: int, limit: int)
    requires Ordered(events)
    ensures var s := Run(events, windowSeconds, limit);
            Ideal(s.log, s.answers) == IdealRun(events, windowSeconds, limit)
  {
    if events != [] {
      RunIsFaithful(events, windowSeconds, limit);
    }
  }

  lemma {:induction false} CountWithin(log: seq<Admission>, from: int, to: int, from': int, to': int)
    requires from' <= from && forall a :: a in log ==> a.time <= to'
    ensures CountIn(log, from, to) <= CountIn(log, from', to')
  {
    if log != [] {
      assert log[|log| - 1] in log && forall a :: a in log[..|log| - 1] ==> a in log;
      CountWithin(log[..|log| - 1], from, to, from', to');
    }
  }

  lemma {:induction false} IdealBound(events: seq<Event>, windowSeconds: int, limit: int, end: int)
    requires Ordered(events)
    ensures CountIn(IdealRun(events, windowSeconds, limit).log, end - windowSeconds * 1000, end) <= Max(0, limit)
    ensures forall a :: a in IdealRun(events, windowSeconds, limit).log ==>
        events != [] && a.time <= events[|events| - 1].time
  {
    if events != [] {
      var init, e := events[..|events| - 1], events[|events| - 1];
      var s, t := IdealRun(init, windowSeconds, limit), IdealRun(events, windowSeconds, limit);
      IdealBound(init, windowSeconds, limit, end);
      if t.log != s.log {
        assert t.log[..|t.log| - 1] == s.log;
        if e.time <= end {
          CountWithin(s.log, end - windowSeconds * 1000, end, e.time - windowSeconds * 1000, e.time);
        }
      }
    }
  }

  /** Hence no interval (T-W, T] ever holds more than `limit` admissions. */
  lemma WindowBound(events: seq<Event>, windowSeconds: int, limit: int, end: int)
    requires Ordered(events)
    ensures CountIn(Run(events, windowSeconds, limit).log, end - windowSeconds * 1000, end) <= Max(0, limit)
  {
    RunIsExact(events, windowSeconds, limit);
    IdealBound(events, windowSeconds, limit, end);
  }

  // ---------------------------------------------------------------------------
  // Answers one by one
  // ---------------------------------------------------------------------------

  /** The admissions that a sequence of answers stands for. */
  function AdmittedLog(events: seq<Event>, answers: seq<Answer>): seq<Admission>
    requires |events| == |answers|
  {
    if events == [] then []
    else
      var n := |events| - 1;
      AdmittedLog(events[..n], answers[..n]) +
      if events[n].Request? && answers[n].Decided? && answers[n].allowed
      then [Admission(events[n].member, events[n].time)] else []
  }

  lemma {:induction false} IdealLog(events: seq<Event>, windowSeconds: int, limit: int)
    ensures var s := IdealRun(events, windowSeconds, limit);
            |s.answers| == |events| && s.log == AdmittedLog(events, s.answers)
  {
    if events != [] {
      var n := |events| - 1;
      IdealLog(events[..n], windowSeconds, limit);
      var before, s := IdealRun(events[..n], windowSeconds, limit), IdealRun(events, windowSeconds, limit);
      assert s.answers[..n] == before.answers;
    }
  }

  // ---------------------------------------------------------------------------
  // Usage queries are invisible
  // ---------------------------------------------------------------------------

  function Requests(events: seq<Event>): seq<Event> {
    if events == [] then []
    else Requests(events[..|events| - 1]) + if events[|events| - 1].Request? then [events[|events| - 1]] else []
  }

  function Decisions(answers: seq<Answer>): seq<Answer> {
    if answers == [] then []
    else Decisions(answers[..|answers| - 1]) + if answers[|answers| - 1].Decided? then [answers[|answers| - 1]] else []
  }

  lemma DecisionsAppend(answers: seq<Answer>, a: Answer)
    ensures Decisions(answers + [a]) == Decisions(answers) + if a.Decided? then [a] else []
  {
    assert (answers + [a])[..|answers + [a]| - 1] == answers;
  }

  lemma IdealAppend(events: seq<Event>, e: Event, windowSeconds: int, limit: int)
    ensures IdealRun(events + [e], windowSeconds, limit)
         == IdealStep(IdealRun(events, windowSeconds, limit), e, windowSeconds, limit)
  {
    assert (events + [e])[..|events + [e]| - 1] == events;
  }

  lemma SameDecisions(s: seq<Answer>, r: seq<Answer>, a: Answer)
    requires Decisions(s) == Decisions(r)
    ensures Decisions(s + [a]) == Decisions(if a.Decided? then r + [a] else r)
  {
    DecisionsAppend(s, a);
    DecisionsAppend(r, a);
  }

  lemma IdealRequest(s: Ideal, r: Ideal, e: Event, windowSeconds: int, limit: int) returns (a: Answer)
    requires s.log == r.log && e.Request?
    ensures a.Decided? && IdealStep(s, e, windowSeconds, limit).log == IdealStep(r, e, windowSeconds, limit).log
    ensures IdealStep(s, e, windowSeconds, limit).answers == s.answers + [a]
    ensures IdealStep(r, e, windowSeconds, limit).answers == r.answers + [a]
  {
    var count := CountIn(s.log, e.time - windowSeconds * 1000, e.time);
    a := Decided(count < limit, if count < limit then count + 1 else count);
  }

  /** The same log, and the same decisions in the same order. */
  ghost predicate Agree(s: Ideal, r: Ideal) {
    s.log == r.log && Decisions(s.answers) == Decisions(r.answers)
  }

  lemma RequestAgrees(s: Ideal, r: Ideal, e: Event, windowSeconds: int, limit: int)
    requires Agree(s, r) && e.Request?
    ensures Agree(IdealStep(s, e, windowSeconds, limit), IdealStep(r, e, windowSeconds, limit))
  {
    var a := IdealRequest(s, r, e, windowSeconds, limit);
    SameDecisions(s.answers, r.answers, a);
  }

  lemma QueryAgrees(s: Ideal, r: Ideal, e: Event, windowSeconds: int, limit: int)
    requires Agree(s, r) && e.UsageQuery?
    ensures Agree(IdealStep(s, e, windowSeconds, limit), r)
  {
    SameDecisions(s.answers, r.answers, Counted(CountIn(s.log, e.time - windowSeconds * 1000, e.time)));
  }

  lemma {:induction false} IdealIgnoresQueries(events: seq<Event>, windowSeconds: int, limit: int)
    ensures Agree(IdealRun(events, windowSeconds, limit), IdealRun(Requests(events), windowSeconds, limit))
  {
    if events != [] {
      var init, e := events[..|events| - 1], events[|events| - 1];
      var s, r := IdealRun(init, windowSeconds, limit), IdealRun(Requests(init), windowSeconds, limit);
      IdealIgnoresQueries(init, windowSeconds, limit);
      if e.Request? {
        IdealAppend(Requests(init), e, windowSeconds, limit);
        RequestAgrees(s, r, e, windowSeconds, limit);
      } else {
        assert Requests(events) == Requests(init);
        QueryAgrees(s, r, e, windowSeconds, limit);
      }
    }
  }

  lemma {:induction false} RequestsOrdered(events: seq<Event>)
    requires Ordered(events)
    ensures Ordered(Requests(events)) && forall e :: e in Requests(events) ==> e in events && e.Request?
  {
    if events != [] {
      var init, e := events[..|events| - 1], events[|events| - 1];
      RequestsOrdered(init);
      var rest := Requests(init);
      forall i | 0 <= i < |rest| ensures rest[i].time <= e.time && (e.Request? ==> rest[i].member != e.member) {
        assert rest[i] in init;
        var k :| 0 <= k < |init| && init[k] == rest[i];
        assert events[k] == rest[i];
      }
    }
  }

  /** Usage queries and dry runs anywhere in a run prune the shared set, yet change no decision. */
  lemma QueriesAreInvisible(events: seq<Event>, windowSeconds: int, limit: int)
    requires Ordered(events)
    ensures Run(events, windowSeconds, limit).log == Run(Requests(events), windowSeconds, limit).log
    ensures Decisions(Run(events, windowSeconds, limit).answers)
         == Decisions(Run(Requests(events), windowSeconds, limit).answers)
  {
    RequestsOrdered(events);
    RunIsExact(events, windowSeconds, limit);
    RunIsExact(Requests(events), windowSeconds, limit);
    IdealIgnoresQueries(events, windowSeconds, limit);
  }
}
