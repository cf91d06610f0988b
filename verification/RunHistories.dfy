/** Whole histories of creations and executions: what threads show, when a resume is let in, and which
    tasks the registry holds. Everything interleaves: the parts of a creation with those of others, and
    tasks on the same thread. */
module RunHistories {
  import opened Common
  import opened RunLifecycle
  import opened RunOutcomes

  /** A request for a run is checked, marks its thread busy, and launches a task; the task's body and handlers
      come to their end; its cleanup ends and it exits. */
  datatype Action =
    | Check(run: string, thread: string, resume: bool, assistantFound: bool)
    | Mark(run: string, thread: string, busy: Await)
    | Launch(run: string, thread: string, metadata: Await, insert: Await)
    | Settle(run: string, thread: string, script: Script)
    | Exit(run: string, cleanup: Await)

  /** A request that has passed its checks, and has marked its thread or not. */
  datatype Request = Request(thread: string, marked: bool)

  /** A task that has not exited, with the script of its execution once its body and handlers are done. */
  datatype Task = Task(thread: string, script: Option<Script>)

  datatype System = System(world: World, active: set<string>, requests: map<string, Request>,
                           tasks: map<string, Task>, used: set<string>)

  function Initial(threads: set<string>): System {
    System(World(map t | t in threads :: Idle, map[], map[], map[]), {}, map[], map[], {})
  }

  /** Run ids are new, and each run goes from part to part. */
  predicate Possible(s: System, a: Action) {
    match a
    case Check(run, _, _, _) => run !in s.used
    case Mark(run, thread, _) => run in s.requests && s.requests[run] == Request(thread, false)
    case Launch(run, thread, _, _) => run in s.requests && s.requests[run] == Request(thread, true)
    case Settle(run, thread, _) => run in s.tasks && s.tasks[run] == Task(thread, None)
    case Exit(run, cleanup) =>
      run in s.tasks && s.tasks[run].script.Some? && s.tasks[run].script.value.cleanup == cleanup
  }

  function Happens(s: System, a: Action): System {
    match a
    case Check(run, thread, resume, found) =>
      s.(requests := if CheckReply(s.world, thread, resume, found).Passes?
                     then s.requests[run := Request(thread, false)] else s.requests,
         used := s.used + {run})
    case Mark(run, thread, busy) =>
      s.(world := AfterMark(s.world, thread, busy),
         requests := if MarkReply(s.world, thread, busy).Passes?
                     then s.requests[run := Request(thread, true)] else s.requests - {run})
    case Launch(run, thread, metadata, insert) =>
      var created := LaunchReply(metadata, insert).Created?;
      s.(world := AfterLaunch(s.world, run, metadata, insert), requests := s.requests - {run},
         active := if created then s.active + {run} else s.active,
         tasks := if created then s.tasks[run := Task(thread, None)] else s.tasks)
    case Settle(run, thread, script) =>
      s.(world := AllApplied(s.world, run, thread, Effects(run, script)),
         tasks := s.tasks[run := Task(thread, Some(script))])
    case Exit(run, cleanup) =>
      s.(active := if cleanup.Fine? then s.active - {run} else s.active, tasks := s.tasks - {run})
  }

  ghost predicate Reaches(threads: set<string>, h: seq<Action>, s: System)
    decreases h
  {
    if h == [] then s == Initial(threads)
    else
      var n := |h| - 1;
      exists t :: Reaches(threads, h[..n], t) && Possible(t, h[n]) && s == Happens(t, h[n])
  }

  lemma Before(threads: set<string>, h: seq<Action>, s: System) returns (t: System)
    requires h != [] && Reaches(threads, h, s)
    ensures Reaches(threads, h[..|h| - 1], t) && Possible(t, h[|h| - 1]) && s == Happens(t, h[|h| - 1])
  {
    t :| Reaches(threads, h[..|h| - 1], t) && Possible(t, h[|h| - 1]) && s == Happens(t, h[|h| - 1]);
  }

  /** The state after the checks, the mark and the launch of one creation, with nothing in between. */
  function AfterCreate(s: System, run: string, thread: string, resume: bool, c: Creation): System {
    var checked := Happens(s, Check(run, thread, resume, c.assistantFound));
    if !CheckReply(s.world, thread, resume, c.assistantFound).Passes? then checked
    else
      var marked := Happens(checked, Mark(run, thread, c.busy));
      if !MarkReply(checked.world, thread, c.busy).Passes? then marked
      else Happens(marked, Launch(run, thread, c.metadata, c.insert))
  }

  // ---------------------------------------------------------------------------
  // The steps are what the service does
  // ---------------------------------------------------------------------------

  ghost predicate Mirrors(world: World, active: set<string>, s: System) {
    world == s.world && active == s.active
  }

  /** The methods for the parts of a creation do what the steps say, and go on exactly when the request stays. */
  method PerformCheck(service: RunService, ghost s: System, run: string, thread: string, resume: bool, found: bool)
      returns (passed: bool, ghost t: System)
    requires Mirrors(service.world, service.active, s) && Possible(s, Check(run, thread, resume, found))
    requires run !in s.requests
    ensures t == Happens(s, Check(run, thread, resume, found)) && Mirrors(service.world, service.active, t)
    ensures passed <==> run in t.requests
  {
    var reply := service.CheckRun(thread, resume, found);
    t := Happens(s, Check(run, thread, resume, found));
    passed := reply.Passes?;
  }

  method PerformMark(service: RunService, ghost s: System, run: string, thread: string, busy: Await)
      returns (passed: bool, ghost t: System)
    requires Mirrors(service.world, service.active, s) && Possible(s, Mark(run, thread, busy))
    modifies service
    ensures t == Happens(s, Mark(run, thread, busy)) && Mirrors(service.world, service.active, t)
    ensures passed <==> run in t.requests
  {
    var reply := service.MarkRun(thread, busy);
    t := Happens(s, Mark(run, thread, busy));
    passed := reply.Passes?;
  }

  method PerformLaunch(service: RunService, ghost s: System, run: string, thread: string, metadata: Await,
                       insert: Await) returns (created: bool, ghost t: System)
    requires Mirrors(service.world, service.active, s) && Possible(s, Launch(run, thread, metadata, insert))
    modifies service
    ensures t == Happens(s, Launch(run, thread, metadata, insert)) && Mirrors(service.world, service.active, t)
    ensures t.tasks == if created then s.tasks[run := Task(thread, None)] else s.tasks
  {
    var reply := service.LaunchRun(run, metadata, insert);
    t := Happens(s, Launch(run, thread, metadata, insert));
    created := reply.Created?;
  }

  /** A creation with nothing in between. */
  method PerformCreate(service: RunService, ghost s: System, run: string, thread: string, resume: bool, c: Creation)
      returns (reply: Reply, ghost t: System)
    requires Mirrors(service.world, service.active, s) && run !in s.used
    modifies service
    ensures t == AfterCreate(s, run, thread, resume, c) && Mirrors(service.world, service.active, t)
    ensures t.tasks == if reply.Created? then s.tasks[run := Task(thread, None)] else s.tasks
  {
    reply := service.CreateRun(run, thread, resume, c);
    t := AfterCreate(s, run, thread, resume, c);
  }

  /** The method of a task does what its two steps say: body and handlers, then the exit. */
  method PerformTask(service: RunService, ghost s: System, run: string, thread: string, script: Script)
      returns (ghost t: System)
    requires Mirrors(service.world, service.active, s) && Possible(s, Settle(run, thread, script))
    modifies service
    ensures Possible(Happens(s, Settle(run, thread, script)), Exit(run, script.cleanup))
    ensures t == Happens(Happens(s, Settle(run, thread, script)), Exit(run, script.cleanup))
    ensures Mirrors(service.world, service.active, t) && run !in t.tasks
  {
    service.ExecuteRunAsync(run, thread, script);
    t := Happens(Happens(s, Settle(run, thread, script)), Exit(run, script.cleanup));
  }

  // ---------------------------------------------------------------------------
  // What threads show
  // ---------------------------------------------------------------------------

  /** What an action leaves on a thread that showed `was`. */
  function Shown(a: Action, thread: string, was: ThreadStatus): ThreadStatus {
    match a
    case Mark(_, t, busy) => if t == thread && TakesEffect(busy) then Busy else was
    case Settle(run, t, script) => if t == thread then LeftStatus(run, script, was) else was
    case _ => was
  }

  function StatusBy(h: seq<Action>, thread: string): ThreadStatus {
    if h == [] then Idle else Shown(h[|h| - 1], thread, StatusBy(h[..|h| - 1], thread))
  }

  /** Ids are used once, and belong to a request or a task of an existing thread. */
  ghost predicate Consistent(threads: set<string>, s: System) {
    && s.world.threads.Keys == threads
    && s.requests.Keys <= s.used && s.tasks.Keys <= s.used && s.requests.Keys !! s.tasks.Keys
    && (forall r :: r in s.requests && s.requests[r].marked ==> s.requests[r].thread in threads)
    && (forall r :: r in s.tasks ==> s.tasks[r].thread in threads)
  }

  lemma StepShows(threads: set<string>, s: System, a: Action)
    requires Consistent(threads, s) && Possible(s, a)
    ensures Consistent(threads, Happens(s, a))
    ensures forall t :: t in threads ==> Happens(s, a).world.threads[t] == Shown(a, t, s.world.threads[t])
  {
    if a.Settle? {
      StatusLeft(s.world, a.run, a.thread, a.script);
    }
  }

  /** In every history, whatever breaks and however it interleaves, threads show what the marks and the ends
      of executions left on them, in their order. */
  lemma {:induction false} StatusByHistory(threads: set<string>, h: seq<Action>, s: System)
    requires Reaches(threads, h, s)
    ensures Consistent(threads, s)
    ensures forall t :: t in threads ==> s.world.threads[t] == StatusBy(h, t)
  {
    if h != [] {
      var t := Before(threads, h, s);
      StatusByHistory(threads, h[..|h| - 1], t);
      StepShows(threads, t, h[|h| - 1]);
    }
  }

  // ---------------------------------------------------------------------------
  // Histories in which the status writes succeed
  // ---------------------------------------------------------------------------

  /** The status writes take effect: a request that marks its thread launches a task, and a body that breaks
      is followed by a handler that writes. */
  predicate WritesSucceed(a: Action) {
    match a
    case Check(_, _, _, _) => true
    case Mark(_, _, busy) => busy.Fine?
    case Launch(_, _, metadata, insert) => metadata.Fine? && insert.Fine?
    case Settle(run, _, script) => RunsToEnd(run, script) || HandlerGetsToWrite(script)
    case Exit(_, _) => true
  }

  ghost predicate AllSucceed(h: seq<Action>) {
    forall i :: 0 <= i < |h| ==> WritesSucceed(h[i])
  }

  predicate Writes(a: Action, thread: string) {
    (a.Mark? || a.Settle?) && a.thread == thread
  }

  /** The latest mark or end of an execution on a thread. */
  function LastWrite(h: seq<Action>, thread: string): (f: Option<Action>)
    ensures f.Some? ==> Writes(f.value, thread)
  {
    if h == [] then None
    else if Writes(h[|h| - 1], thread) then Some(h[|h| - 1])
    else LastWrite(h[..|h| - 1], thread)
  }

  predicate IsMark(f: Option<Action>) {
    f.Some? && f.value.Mark?
  }

  predicate EndedInterrupted(f: Option<Action>) {
    f.Some? && f.value.Settle? && RunsToEnd(f.value.run, f.value.script) && Interrupts(f.value.script)
  }

  lemma {:induction false} StatusByLastWrite(h: seq<Action>, thread: string)
    requires AllSucceed(h)
    ensures StatusBy(h, thread) == if IsMark(LastWrite(h, thread)) then Busy
                                   else if EndedInterrupted(LastWrite(h, thread)) then Interrupted else Idle
  {
    if h != [] {
      var init, last := h[..|h| - 1], h[|h| - 1];
      StatusByLastWrite(init, thread);
      assert WritesSucceed(last);
    }
  }

  /** In every history whose status writes take effect, however it interleaves, a thread is busy exactly if
      the latest write to it was a mark, and interrupted exactly if it was by an execution that ended so. */
  lemma StatusIsLastWrite(threads: set<string>, h: seq<Action>, s: System, thread: string)
    requires Reaches(threads, h, s) && thread in threads && AllSucceed(h)
    ensures thread in s.world.threads
    ensures s.world.threads[thread] == Busy <==> IsMark(LastWrite(h, thread))
    ensures s.world.threads[thread] == Interrupted <==> EndedInterrupted(LastWrite(h, thread))
  {
    StatusByHistory(threads, h, s);
    StatusByLastWrite(h, thread);
  }

  /** So a resume passes its checks exactly when the latest write to its thread was by an execution that ended
      interrupted, whatever runs of the thread are under way. */
  lemma ResumePassesIff(threads: set<string>, h: seq<Action>, s: System, thread: string)
    requires Reaches(threads, h, s) && AllSucceed(h)
    ensures CheckReply(s.world, thread, true, true).Passes?
       <==> thread in threads && EndedInterrupted(LastWrite(h, thread))
  {
    StatusByHistory(threads, h, s);
    if thread in threads {
      StatusByLastWrite(h, thread);
    }
  }

  lemma {:induction false} NoEndBetween(h: seq<Action>, more: seq<Action>, thread: string)
    requires forall i :: 0 <= i < |more| ==> !(more[i].Settle? && more[i].thread == thread)
    ensures (forall i :: 0 <= i < |more| ==> !Writes(more[i], thread)) ==>
              LastWrite(h + more, thread) == LastWrite(h, thread)
    ensures (exists i :: 0 <= i < |more| && Writes(more[i], thread)) ==> IsMark(LastWrite(h + more, thread))
  {
    if more == [] {
      assert h + more == h;
    } else {
      var init, last := more[..|more| - 1], more[|more| - 1];
      assert (h + more)[..|h + more| - 1] == h + init && (h + more)[|h + more| - 1] == last;
      NoEndBetween(h, init, thread);
      assert forall i :: 0 <= i < |more| ==> more[i] == if i < |init| then init[i] else last;
    }
  }

  /** Of two resumes of one thread with no execution on it ending in between, the first of which passes, the
      second passes too exactly when nobody, not even the first, has marked the thread meanwhile. */
  lemma SecondResumePassesIff(threads: set<string>, h: seq<Action>, more: seq<Action>, s: System, u: System,
                              thread: string)
    requires Reaches(threads, h, s) && Reaches(threads, h + more, u) && AllSucceed(h + more)
    requires CheckReply(s.world, thread, true, true).Passes?
    requires forall i :: 0 <= i < |more| ==> !(more[i].Settle? && more[i].thread == thread)
    ensures CheckReply(u.world, thread, true, true).Passes?
       <==> forall i :: 0 <= i < |more| ==> !(more[i].Mark? && more[i].thread == thread)
  {
    assert forall i :: 0 <= i < |h| ==> h[i] == (h + more)[i];
    ResumePassesIff(threads, h, s, thread);
    ResumePassesIff(threads, h + more, u, thread);
    NoEndBetween(h, more, thread);
  }

  // ---------------------------------------------------------------------------
  // Rows
  // ---------------------------------------------------------------------------

  lemma {:induction false} OtherRunsKept(w: World, run: string, thread: string, es: seq<Effect>, other: string)
    requires other != run
    ensures var u := AllApplied(w, run, thread, es);
            (other in u.runs <==> other in w.runs) && (other in w.runs ==> u.runs[other] == w.runs[other])
  {
    if es != [] {
      OtherRunsKept(w, run, thread, es[..|es| - 1], other);
    }
  }

  /** Every task that has not come to its end has its run row, pending. */
  ghost predicate RowsPending(s: System) {
    forall r :: r in s.tasks && s.tasks[r].script.None? ==>
      r in s.world.runs && s.world.runs[r] == RunRow(Pending, None, None)
  }

  lemma StepKeepsRows(threads: set<string>, s: System, a: Action)
    requires Consistent(threads, s) && RowsPending(s) && Possible(s, a)
    ensures RowsPending(Happens(s, a))
  {
    if a.Settle? {
      forall r | r in s.tasks && r != a.run
        ensures r in s.world.runs ==> r in Happens(s, a).world.runs
                                      && Happens(s, a).world.runs[r] == s.world.runs[r]
      {
        OtherRunsKept(s.world, a.run, a.thread, Effects(a.run, a.script), r);
      }
    }
  }

  /** In every history, a created run has its row, pending until its execution comes to its end. */
  lemma {:induction false} CreatedRunsHaveRows(threads: set<string>, h: seq<Action>, s: System)
    requires Reaches(threads, h, s)
    ensures RowsPending(s)
  {
    if h != [] {
      var t := Before(threads, h, s);
      StatusByHistory(threads, h[..|h| - 1], t);
      CreatedRunsHaveRows(threads, h[..|h| - 1], t);
      StepKeepsRows(threads, t, h[|h| - 1]);
    }
  }

  /** So an execution that runs to its end leaves its row interrupted or completed, in agreement with what it
      leaves on its thread. */
  lemma EndedRunAgrees(threads: set<string>, h: seq<Action>, s: System, a: Action)
    requires Reaches(threads, h, s) && a.Settle? && Possible(s, a) && RunsToEnd(a.run, a.script)
    ensures var u := Happens(s, a).world;
            && a.run in u.runs && a.thread in u.threads
            && u.runs[a.run].status == (if ShowsInterrupt(a.script) then InterruptedRun else Completed)
            && u.threads[a.thread] == if ShowsInterrupt(a.script) then Interrupted else Idle
  {
    CreatedRunsHaveRows(threads, h, s);
    StatusByHistory(threads, h, s);
    RunStatusLeft(s.world, a.run, a.thread, a.script);
    ThreadStatusLeft(s.world, a.run, a.thread, a.script);
  }

  // ---------------------------------------------------------------------------
  // Runs under way
  // ---------------------------------------------------------------------------

  /** The run has marked its thread and not come to its last status write. */
  predicate RunUnderWay(s: System, run: string, thread: string) {
    (run in s.requests && s.requests[run] == Request(thread, true))
    || (run in s.tasks && s.tasks[run] == Task(thread, None))
  }

  ghost predicate UnderWay(s: System, thread: string) {
    exists run :: RunUnderWay(s, run, thread)
  }

  /** What one action changes. */
  lemma UnderWayStep(threads: set<string>, s: System, a: Action, run: string, thread: string)
    requires Consistent(threads, s) && Possible(s, a) && WritesSucceed(a) && thread in threads
    ensures RunUnderWay(Happens(s, a), run, thread)
       <==> if Writes(a, thread) && a.run == run then a.Mark? else RunUnderWay(s, run, thread)
  {
  }

  /** The run whose mark is the latest write of a thread is under way. */
  lemma {:induction false} MarkIsUnderWay(threads: set<string>, h: seq<Action>, s: System, thread: string)
    requires Reaches(threads, h, s) && AllSucceed(h) && thread in threads
    ensures IsMark(LastWrite(h, thread)) ==> RunUnderWay(s, LastWrite(h, thread).value.run, thread)
  {
    if h != [] {
      var init, a := h[..|h| - 1], h[|h| - 1];
      var t := Before(threads, h, s);
      StatusByHistory(threads, init, t);
      MarkIsUnderWay(threads, init, t, thread);
      assert WritesSucceed(a);
      var f := LastWrite(h, thread);
      if IsMark(f) {
        UnderWayStep(threads, t, a, f.value.run, thread);
      }
    }
  }

  /** A busy thread has a run under way, in every history whose status writes take effect. */
  lemma BusyIsUnderWay(threads: set<string>, h: seq<Action>, s: System, thread: string)
    requires Reaches(threads, h, s) && AllSucceed(h) && thread in threads
    ensures thread in s.world.threads
    ensures s.world.threads[thread] == Busy ==> UnderWay(s, thread)
  {
    StatusIsLastWrite(threads, h, s, thread);
    MarkIsUnderWay(threads, h, s, thread);
  }

  /** The history, and no run marks a thread while another run of it is under way. */
  ghost predicate ReachesOrderly(threads: set<string>, h: seq<Action>, s: System)
    decreases h
  {
    if h == [] then s == Initial(threads)
    else
      var n := |h| - 1;
      exists t :: ReachesOrderly(threads, h[..n], t) && Possible(t, h[n]) && s == Happens(t, h[n])
                  && (h[n].Mark? ==> !UnderWay(t, h[n].thread))
  }

  lemma BeforeOrderly(threads: set<string>, h: seq<Action>, s: System) returns (t: System)
    requires h != [] && ReachesOrderly(threads, h, s)
    ensures ReachesOrderly(threads, h[..|h| - 1], t) && Possible(t, h[|h| - 1]) && s == Happens(t, h[|h| - 1])
    ensures h[|h| - 1].Mark? ==> !UnderWay(t, h[|h| - 1].thread)
  {
    t :| ReachesOrderly(threads, h[..|h| - 1], t) && Possible(t, h[|h| - 1]) && s == Happens(t, h[|h| - 1])
         && (h[|h| - 1].Mark? ==> !UnderWay(t, h[|h| - 1].thread));
  }

  lemma {:induction false} OrderlyReaches(threads: set<string>, h: seq<Action>, s: System)
    requires ReachesOrderly(threads, h, s)
    ensures Reaches(threads, h, s)
  {
    if h != [] {
      var t := BeforeOrderly(threads, h, s);
      OrderlyReaches(threads, h[..|h| - 1], t);
    }
  }

  /** In an orderly history, a run under way is the one whose mark is the latest write. */
  lemma {:induction false} UnderWayIsMark(threads: set<string>, h: seq<Action>, s: System, run: string, thread: string)
    requires ReachesOrderly(threads, h, s) && AllSucceed(h) && thread in threads && RunUnderWay(s, run, thread)
    ensures IsMark(LastWrite(h, thread)) && LastWrite(h, thread).value.run == run
  {
    if h != [] {
      var init, a := h[..|h| - 1], h[|h| - 1];
      var t := BeforeOrderly(threads, h, s);
      OrderlyReaches(threads, init, t);
      StatusByHistory(threads, init, t);
      assert WritesSucceed(a);
      UnderWayStep(threads, t, a, run, thread);
      if RunUnderWay(t, run, thread) {
        UnderWayIsMark(threads, init, t, run, thread);
        if Writes(a, thread) && a.Settle? {
          UnderWayIsMark(threads, init, t, a.run, thread);
        }
      }
    }
  }

  /** If, besides, no run marks a thread while another run of it is under way, then the thread is busy exactly
      while a run is, and otherwise interrupted exactly when the latest execution on it ended so. */
  lemma StatusTracksRuns(threads: set<string>, h: seq<Action>, s: System, thread: string)
    requires ReachesOrderly(threads, h, s) && thread in threads && AllSucceed(h)
    ensures thread in s.world.threads
    ensures s.world.threads[thread] == Busy <==> UnderWay(s, thread)
    ensures s.world.threads[thread] == Interrupted <==> !UnderWay(s, thread) && EndedInterrupted(LastWrite(h, thread))
  {
    OrderlyReaches(threads, h, s);
    StatusIsLastWrite(threads, h, s, thread);
    BusyIsUnderWay(threads, h, s, thread);
    if UnderWay(s, thread) {
      var run :| RunUnderWay(s, run, thread);
      UnderWayIsMark(threads, h, s, run, thread);
    }
  }

  // ---------------------------------------------------------------------------
  // Creations that break
  // ---------------------------------------------------------------------------

  /** A creation strands a free thread, busy with no run under way, exactly when it gets past its checks, marks
      the thread and then breaks. */
  lemma CreationStrandsIff(threads: set<string>, s: System, run: string, thread: string, resume: bool, c: Creation)
    requires Consistent(threads, s) && run !in s.used && thread in threads
    requires s.world.threads[thread] != Busy && !UnderWay(s, thread)
    ensures var u := AfterCreate(s, run, thread, resume, c);
            thread in u.world.threads
            && (u.world.threads[thread] == Busy && !UnderWay(u, thread)
                <==> && c.assistantFound && (resume ==> s.world.threads[thread] == Interrupted)
                     && TakesEffect(c.busy) && !(c.busy.Fine? && c.metadata.Fine? && c.insert.Fine?))
  {
    var u := AfterCreate(s, run, thread, resume, c);
    forall r ensures RunUnderWay(u, r, thread) ==> r == run {
      assert !RunUnderWay(s, r, thread);
    }
    assert UnderWay(u, thread) <==> RunUnderWay(u, run, thread);
  }

  /** A creation whose insert breaks leaves its thread busy with no run under way. */
  lemma BrokenInsertStrands()
    ensures var u := AfterCreate(Initial({"t"}), "r", "t", false, Creation(true, Fine, Fine, Breaks(false, false)));
            u.world.threads == map["t" := Busy] && !UnderWay(u, "t") && u.active == {}
  {
    var s, c := Initial({"t"}), Creation(true, Fine, Fine, Breaks(false, false));
    CreationStrandsIff({"t"}, s, "r", "t", false, c);
  }

  // ---------------------------------------------------------------------------
  // Two resumes at once
  // ---------------------------------------------------------------------------

  /** The next action of a history. */
  lemma Next(threads: set<string>, h: seq<Action>, n: nat, s: System)
    requires n < |h| && Reaches(threads, h[..n], s)
    ensures Possible(s, h[n]) ==> Reaches(threads, h[..n + 1], Happens(s, h[n]))
  {
    assert h[..n + 1][..n] == h[..n];
  }

  lemma NextCheck(threads: set<string>, h: seq<Action>, n: nat, s: System) returns (u: System)
    requires n < |h| && Reaches(threads, h[..n], s) && h[n].Check? && h[n].run !in s.used
    requires CheckReply(s.world, h[n].thread, h[n].resume, h[n].assistantFound).Passes?
    ensures Reaches(threads, h[..n + 1], u)
    ensures u == s.(requests := s.requests[h[n].run := Request(h[n].thread, false)], used := s.used + {h[n].run})
  {
    Next(threads, h, n, s);
    u := Happens(s, h[n]);
  }

  lemma NextMark(threads: set<string>, h: seq<Action>, n: nat, s: System) returns (u: System)
    requires n < |h| && Reaches(threads, h[..n], s) && h[n].Mark? && h[n].busy.Fine? && h[n].thread in s.world.threads
    requires h[n].run in s.requests && s.requests[h[n].run] == Request(h[n].thread, false)
    ensures Reaches(threads, h[..n + 1], u)
    ensures u == s.(requests := s.requests[h[n].run := Request(h[n].thread, true)], world := u.world)
    ensures u.world.threads == s.world.threads[h[n].thread := Busy]
  {
    Next(threads, h, n, s);
    u := Happens(s, h[n]);
  }

  lemma NextLaunch(threads: set<string>, h: seq<Action>, n: nat, s: System) returns (u: System)
    requires n < |h| && Reaches(threads, h[..n], s) && h[n].Launch? && h[n].metadata.Fine? && h[n].insert.Fine?
    requires h[n].run in s.requests && s.requests[h[n].run] == Request(h[n].thread, true)
    ensures Reaches(threads, h[..n + 1], u)
    ensures u == s.(requests := s.requests - {h[n].run}, tasks := s.tasks[h[n].run := Task(h[n].thread, None)],
                    active := s.active + {h[n].run}, world := u.world)
    ensures u.world.threads == s.world.threads
  {
    Next(threads, h, n, s);
    u := Happens(s, h[n]);
  }

  lemma NextSettle(threads: set<string>, h: seq<Action>, n: nat, s: System) returns (u: System)
    requires n < |h| && Reaches(threads, h[..n], s) && h[n].Settle? && h[n].thread in s.world.threads
    requires h[n].run in s.tasks && s.tasks[h[n].run] == Task(h[n].thread, None) && RunsToEnd(h[n].run, h[n].script)
    ensures Reaches(threads, h[..n + 1], u)
    ensures u == s.(tasks := s.tasks[h[n].run := Task(h[n].thread, Some(h[n].script))], world := u.world)
    ensures u.world.threads == s.world.threads[h[n].thread := EndStatus(h[n].script)]
  {
    Next(threads, h, n, s);
    StatusLeft(s.world, h[n].run, h[n].thread, h[n].script);
    u := Happens(s, h[n]);
  }

  /** An execution without events that goes well, up to its cleanup. */
  function Plain(interrupts: bool, cleanup: Await): Script {
    Script(Fine, Fine, [], Fine, Saw(interrupts), Fine, Fine, Fine, Fine, Fine, cleanup, "")
  }

  lemma PlainEnds(run: string, interrupts: bool, cleanup: Await)
    ensures RunsToEnd(run, Plain(interrupts, cleanup))
    ensures EndStatus(Plain(interrupts, cleanup)) == if interrupts then Interrupted else Idle
  {
    var s := Plain(interrupts, cleanup);
    OpeningInTwo(ANY_WORLD, run, "", s, []);
    assert OpeningSteps(s) + [] == OpeningSteps(s);
  }

  lemma UpdateTwice<K, V>(m: map<K, V>, k: K, v: V, w: V)
    ensures m[k := v][k := w] == m[k := w]
  {
  }

  /** Such an execution comes to its end. */
  lemma NextPlain(threads: set<string>, h: seq<Action>, n: nat, s: System, run: string, thread: string,
                  interrupts: bool, cleanup: Await) returns (u: System)
    requires n < |h| && Reaches(threads, h[..n], s) && h[n] == Settle(run, thread, Plain(interrupts, cleanup))
    requires thread in s.world.threads && run in s.tasks && s.tasks[run] == Task(thread, None)
    ensures Reaches(threads, h[..n + 1], u)
    ensures u == s.(tasks := s.tasks[run := Task(thread, Some(Plain(interrupts, cleanup)))], world := u.world)
    ensures u.world.threads == s.world.threads[thread := if interrupts then Interrupted else Idle]
  {
    PlainEnds(run, interrupts, cleanup);
    u := NextSettle(threads, h, n, s);
  }

  /** A creation with nothing in between, that starts a history. */
  predicate CreatesFirst(h: seq<Action>, run: string, thread: string) {
    && 3 <= |h| && h[0] == Check(run, thread, false, true) && h[1] == Mark(run, thread, Fine)
    && h[2] == Launch(run, thread, Fine, Fine)
  }

  lemma FirstCreation(threads: set<string>, h: seq<Action>, run: string, thread: string) returns (s: System)
    requires CreatesFirst(h, run, thread) && thread in threads
    ensures Reaches(threads, h[..3], s)
    ensures s.world.threads == Initial(threads).world.threads[thread := Busy]
    ensures s.requests == map[] && s.used == s.active == {run} && s.tasks == map[run := Task(thread, None)]
  {
    s := Initial(threads);
    assert h[..0] == [];
    s := NextCheck(threads, h, 0, s);
    s := NextMark(threads, h, 1, s);
    s := NextLaunch(threads, h, 2, s);
  }

  lemma RunsToItsEnd(threads: set<string>, h: seq<Action>, run: string, thread: string, interrupts: bool,
                     cleanup: Await) returns (s: System)
    requires CreatesFirst(h, run, thread) && thread in threads
    requires |h| >= 4 && h[3] == Settle(run, thread, Plain(interrupts, cleanup))
    ensures Reaches(threads, h[..4], s)
    ensures s.world.threads == Initial(threads).world.threads[thread := if interrupts then Interrupted else Idle]
    ensures s.requests == map[] && s.used == s.active == {run}
    ensures s.tasks == map[run := Task(thread, Some(Plain(interrupts, cleanup)))]
  {
    var free, status := Initial(threads).world.threads, if interrupts then Interrupted else Idle;
    s := FirstCreation(threads, h, run, thread);
    s := NextPlain(threads, h, 3, s, run, thread, interrupts, cleanup);
    UpdateTwice(free, thread, Busy, status);
    UpdateTwice(map[], run, Task(thread, None), Task(thread, Some(Plain(interrupts, cleanup))));
  }

  /** From `n` on, two resumes that both check before either marks the thread. */
  predicate ResumeAtOnce(h: seq<Action>, n: nat, b: string, c: string, thread: string) {
    && n + 6 <= |h| && h[n] == Check(b, thread, true, true) && h[n + 1] == Check(c, thread, true, true)
    && h[n + 2] == Mark(b, thread, Fine) && h[n + 3] == Mark(c, thread, Fine)
    && h[n + 4] == Launch(b, thread, Fine, Fine) && h[n + 5] == Launch(c, thread, Fine, Fine)
  }

  lemma BothPass(threads: set<string>, h: seq<Action>, n: nat, s: System, b: string, c: string, thread: string)
      returns (u: System)
    requires ResumeAtOnce(h, n, b, c, thread) && Reaches(threads, h[..n], s)
    requires b != c && b !in s.used && c !in s.used
    requires thread in s.world.threads && s.world.threads[thread] == Interrupted
    ensures Reaches(threads, h[..n + 2], u) && u.world == s.world && u.tasks == s.tasks
    ensures b in u.requests && c in u.requests && u.requests[b] == u.requests[c] == Request(thread, false)
  {
    u := NextCheck(threads, h, n, s);
    u := NextCheck(threads, h, n + 1, u);
  }

  lemma BothMark(threads: set<string>, h: seq<Action>, n: nat, s: System, b: string, c: string, thread: string)
      returns (u: System)
    requires ResumeAtOnce(h, n, b, c, thread) && Reaches(threads, h[..n + 2], s) && b != c
    requires b in s.requests && c in s.requests && s.requests[b] == s.requests[c] == Request(thread, false)
    requires thread in s.world.threads
    ensures Reaches(threads, h[..n + 4], u) && u.tasks == s.tasks
    ensures u.world.threads == s.world.threads[thread := Busy]
    ensures b in u.requests && c in u.requests && u.requests[b] == u.requests[c] == Request(thread, true)
  {
    u := NextMark(threads, h, n + 2, s);
    u := NextMark(threads, h, n + 3, u);
    UpdateTwice(s.world.threads, thread, Busy, Busy);
  }

  /** Both get tasks. */
  lemma BothGetTasks(threads: set<string>, h: seq<Action>, n: nat, s: System, b: string, c: string, thread: string)
      returns (u: System)
    requires ResumeAtOnce(h, n, b, c, thread) && Reaches(threads, h[..n + 4], s) && b != c
    requires b in s.requests && c in s.requests && s.requests[b] == s.requests[c] == Request(thread, true)
    ensures Reaches(threads, h[..n + 6], u) && u.world.threads == s.world.threads
    ensures b in u.tasks && c in u.tasks && u.tasks[b] == u.tasks[c] == Task(thread, None)
  {
    u := NextLaunch(threads, h, n + 4, s);
    u := NextLaunch(threads, h, n + 5, u);
  }

  /** A run ends interrupted; two resumes check before either marks the thread; the first of them ends. */
  function TwoResumes(a: string, b: string, c: string, thread: string): seq<Action> {
    [Check(a, thread, false, true), Mark(a, thread, Fine), Launch(a, thread, Fine, Fine),
     Settle(a, thread, Plain(true, Fine)),
     Check(b, thread, true, true), Check(c, thread, true, true),
     Mark(b, thread, Fine), Mark(c, thread, Fine),
     Launch(b, thread, Fine, Fine), Launch(c, thread, Fine, Fine),
     Settle(b, thread, Plain(false, Fine))]
  }

  lemma TwoResumesParts(a: string, b: string, c: string, thread: string)
    ensures var h := TwoResumes(a, b, c, thread);
            && |h| == 11 && CreatesFirst(h, a, thread) && h[3] == Settle(a, thread, Plain(true, Fine))
            && ResumeAtOnce(h, 4, b, c, thread) && h[10] == Settle(b, thread, Plain(false, Fine))
  {
  }

  lemma LastEnds(h: seq<Action>, s: System, b: string, c: string, thread: string) returns (u: System)
    requires |h| == 11 && h[10] == Settle(b, thread, Plain(false, Fine)) && Reaches({thread}, h[..10], s) && b != c
    requires s.world.threads == map[thread := Busy]
    requires b in s.tasks && c in s.tasks && s.tasks[b] == s.tasks[c] == Task(thread, None)
    ensures Reaches({thread}, h, u) && u.world.threads == map[thread := Idle] && RunUnderWay(u, c, thread)
    ensures b in u.tasks && u.tasks[b].script.Some?
  {
    u := NextPlain({thread}, h, 10, s, b, thread, false, Fine);
    UpdateTwice(map[], thread, Busy, Idle);
    assert h[..11] == h;
  }

  /** When the first of two resumes at once ends, the thread shows idle although the other is under way. */
  lemma FirstOfTwoEnds(h: seq<Action>, s: System, b: string, c: string, thread: string) returns (u: System)
    requires |h| == 11 && ResumeAtOnce(h, 4, b, c, thread) && h[10] == Settle(b, thread, Plain(false, Fine))
    requires Reaches({thread}, h[..4], s) && b != c && b !in s.used && c !in s.used
    requires s.world.threads == map[thread := Interrupted]
    ensures Reaches({thread}, h, u) && u.world.threads == map[thread := Idle] && RunUnderWay(u, c, thread)
    ensures b in u.tasks && u.tasks[b].script.Some?
  {
    u := BothPass({thread}, h, 4, s, b, c, thread);
    u := BothMark({thread}, h, 4, u, b, c, thread);
    UpdateTwice(map[], thread, Interrupted, Busy);
    u := BothGetTasks({thread}, h, 4, u, b, c, thread);
    u := LastEnds(h, u, b, c, thread);
  }

  lemma TwoResumesSucceed(a: string, b: string, c: string, thread: string)
    ensures AllSucceed(TwoResumes(a, b, c, thread))
  {
    PlainEnds(a, true, Fine);
    PlainEnds(b, false, Fine);
  }

  lemma OneThread(thread: string, status: ThreadStatus)
    ensures Initial({thread}).world.threads[thread := status] == map[thread := status]
  {
  }

  /** So a thread can show idle while a run of it is under way: here two resumes both got tasks, and one of
      them has ended. */
  lemma TwoResumesBothRun(a: string, b: string, c: string, thread: string) returns (s: System)
    requires a != b && a != c && b != c
    ensures Reaches({thread}, TwoResumes(a, b, c, thread), s) && AllSucceed(TwoResumes(a, b, c, thread))
    ensures s.world.threads == map[thread := Idle] && RunUnderWay(s, c, thread)
    ensures b in s.tasks && s.tasks[b].script.Some?
  {
    var h := TwoResumes(a, b, c, thread);
    TwoResumesParts(a, b, c, thread);
    s := RunsToItsEnd({thread}, h, a, thread, true, Fine);
    OneThread(thread, Interrupted);
    s := FirstOfTwoEnds(h, s, b, c, thread);
    TwoResumesSucceed(a, b, c, thread);
  }

  // ---------------------------------------------------------------------------
  // The registry of tasks
  // ---------------------------------------------------------------------------

  /** The runs whose task exited although its broker cleanup broke. */
  function Leaked(h: seq<Action>): set<string> {
    if h == [] then {}
    else
      var last := h[|h| - 1];
      Leaked(h[..|h| - 1]) + if last.Exit? && last.cleanup.Breaks? then {last.run} else {}
  }

  /** The registry holds the tasks and some runs that have left them, none of which is waiting to start. */
  ghost predicate Registers(s: System, leaked: set<string>) {
    && s.active == s.tasks.Keys + leaked
    && s.tasks.Keys !! leaked && s.requests.Keys !! s.tasks.Keys + leaked
    && s.requests.Keys + s.tasks.Keys + leaked <= s.used
  }

  lemma RegistryStep(s: System, a: Action, leaked: set<string>)
    requires Registers(s, leaked) && Possible(s, a)
    ensures Registers(Happens(s, a), leaked + if a.Exit? && a.cleanup.Breaks? then {a.run} else {})
  {
  }

  lemma {:induction false} RegistryInv(threads: set<string>, h: seq<Action>, s: System)
    requires Reaches(threads, h, s)
    ensures Registers(s, Leaked(h))
  {
    if h != [] {
      var t := Before(threads, h, s);
      RegistryInv(threads, h[..|h| - 1], t);
      RegistryStep(t, h[|h| - 1], Leaked(h[..|h| - 1]));
    }
  }

  predicate CleanupsFine(h: seq<Action>) {
    forall i :: 0 <= i < |h| && h[i].Exit? ==> h[i].cleanup.Fine?
  }

  lemma {:induction false} LeakedIff(h: seq<Action>)
    ensures Leaked(h) == {} <==> CleanupsFine(h)
  {
    if h != [] {
      var init, last := h[..|h| - 1], h[|h| - 1];
      LeakedIff(init);
      assert h == init + [last];
      assert CleanupsFine(h) <==> CleanupsFine(init) && (last.Exit? ==> last.cleanup.Fine?);
    }
  }

  /** The registry holds exactly the tasks that have not exited and those whose cleanup broke; so it holds
      only live tasks exactly when no cleanup has broken. */
  lemma OnlyLiveTasksIff(threads: set<string>, h: seq<Action>, s: System)
    requires Reaches(threads, h, s)
    ensures s.active == s.tasks.Keys + Leaked(h)
    ensures s.active == s.tasks.Keys <==> CleanupsFine(h)
  {
    RegistryInv(threads, h, s);
    LeakedIff(h);
  }

  /** A run is created, runs to its end, and its cleanup breaks. */
  const BROKEN_CLEANUP := [
    Check("r", "t", false, true), Mark("r", "t", Fine), Launch("r", "t", Fine, Fine),
    Settle("r", "t", Plain(false, Breaks(false, false))), Exit("r", Breaks(false, false))]

  /** A registry that keeps a task that has exited. */
  lemma RegistryKeepsDeadTask() returns (s: System)
    ensures Reaches({"t"}, BROKEN_CLEANUP, s)
    ensures s.tasks.Keys == {} && s.active == {"r"}
  {
    var h := BROKEN_CLEANUP;
    var t := RunsToItsEnd({"t"}, h, "r", "t", false, Breaks(false, false));
    Next({"t"}, h, 4, t);
    s := Happens(t, h[4]);
    assert h[..5] == h;
  }
}
