/** Runs and threads: creating a run, executing it as a background task, and what threads then show. */
module RunLifecycle {
  import opened Common
  import opened EventId

  datatype ThreadStatus = Idle | Busy | Interrupted
  datatype RunStatus = Pending | Running | Completed | InterruptedRun | CancelledRun | FailedRun

  /** A run row: its status, its output as stored, and its error message. */
  datatype RunRow = RunRow(status: RunStatus, output: Option<string>, error: Option<string>)

  /** An update of a run row: a column that is not given keeps its value. */
  datatype RunUpdate = RunUpdate(status: RunStatus, output: Option<string>, error: Option<string>)

  const EMPTY_OUTPUT := "{}"
  const STARTED := RunUpdate(Running, None, None)

  function Updated(row: RunRow, u: RunUpdate): RunRow {
    RunRow(u.status, if u.output.Some? then u.output else row.output, if u.error.Some? then u.error else row.error)
  }

  /** How an awaited call ends: well, or with an exception or a cancellation, in which case its effect
      may have taken place or not. */
  datatype Await = Fine | Breaks(cancelled: bool, applied: bool)

  predicate TakesEffect(a: Await) {
    a.Fine? || a.applied
  }

  datatype Effect =
    | SetRun(run: RunUpdate)
    | SetThread(thread: ThreadStatus)
    | Broker(eventId: string)
    | Store(eventId: string)
    | NoEffect

  /** The thread and run rows, and the event ids handed to the broker and to the event store by run. */
  datatype World = World(threads: map<string, ThreadStatus>, runs: map<string, RunRow>,
                         brokered: map<string, seq<string>>, stored: map<string, seq<string>>)

  const ANY_WORLD := World(map[], map[], map[], map[])

  function IdsOf(m: map<string, seq<string>>, runId: string): seq<string> {
    if runId in m then m[runId] else []
  }

  /** An update of a row that does not exist changes nothing. */
  function Applied(w: World, runId: string, threadId: string, e: Effect): World {
    match e
    case SetRun(u) => if runId in w.runs then w.(runs := w.runs[runId := Updated(w.runs[runId], u)]) else w
    case SetThread(status) => if threadId in w.threads then w.(threads := w.threads[threadId := status]) else w
    case Broker(id) => w.(brokered := w.brokered[runId := IdsOf(w.brokered, runId) + [id]])
    case Store(id) => w.(stored := w.stored[runId := IdsOf(w.stored, runId) + [id]])
    case NoEffect => w
  }

  function AllApplied(w: World, runId: string, threadId: string, es: seq<Effect>): World {
    if es == [] then w
    else Applied(AllApplied(w, runId, threadId, es[..|es| - 1]), runId, threadId, es[|es| - 1])
  }

  // ---------------------------------------------------------------------------
  // One execution, as a list of awaited calls
  // ---------------------------------------------------------------------------

  /** A raw event of the graph's stream: whether it is seen to carry an interrupt and, for an event of mode
      `values`, its payload as it would be stored, an empty object if it is falsy. */
  datatype Chunk = Skipped | Event(interrupt: bool, values: Option<string>, broker: Await, store: Await)

  /** Looking up the graph's state after the stream; an exception there is only logged. */
  datatype Peek = Saw(next: bool) | PeekRaises | PeekCancelled

  /** What every awaited call of one execution would do, and the text of an exception that breaks its body. */
  datatype Script = Script(running: Await, setup: Await, chunks: seq<Chunk>, streamEnd: Await, peek: Peek,
                           finalRun: Await, finalThread: Await,
                           handlerRun: Await, handlerThread: Await, signal: Await, cleanup: Await, error: string)

  datatype Step = Step(effect: Effect, await: Await)

  function Happened(steps: seq<Step>): seq<Effect> {
    if steps == [] then []
    else if steps[0].await.Fine? then [steps[0].effect] + Happened(steps[1..])
    else if steps[0].await.applied then [steps[0].effect]
    else []
  }

  function FirstFault(steps: seq<Step>): (f: Option<Await>)
    ensures f.Some? ==> f.value.Breaks?
  {
    if steps == [] then None
    else if steps[0].await.Fine? then FirstFault(steps[1..])
    else Some(steps[0].await)
  }

  /** From chunk `k` on: how many events there are, and whether one shows an interrupt. */
  function EventsFrom(chunks: seq<Chunk>, k: nat): nat
    requires k <= |chunks|
    decreases |chunks| - k
  {
    if k == |chunks| then 0 else (if chunks[k].Event? then 1 else 0) + EventsFrom(chunks, k + 1)
  }

  predicate InterruptFrom(chunks: seq<Chunk>, k: nat)
    requires k <= |chunks|
    decreases |chunks| - k
  {
    k < |chunks| && ((chunks[k].Event? && chunks[k].interrupt) || InterruptFrom(chunks, k + 1))
  }

  /** From chunk `k` on: the payload of the last event of mode `values`, or else `current`. */
  function OutputFrom(chunks: seq<Chunk>, k: nat, current: string): string
    requires k <= |chunks|
    decreases |chunks| - k
  {
    if k == |chunks| then current
    else if chunks[k].Event? && chunks[k].values.Some? then OutputFrom(chunks, k + 1, chunks[k].values.value)
    else OutputFrom(chunks, k + 1, current)
  }

  function FinalOutput(chunks: seq<Chunk>): string {
    OutputFrom(chunks, 0, EMPTY_OUTPUT)
  }

  function Events(chunks: seq<Chunk>): nat {
    EventsFrom(chunks, 0)
  }

  predicate InterruptSeen(chunks: seq<Chunk>) {
    InterruptFrom(chunks, 0)
  }

  /** An interrupt counts if an event showed it, or else if the graph has a next node. */
  predicate Interrupts(s: Script) {
    InterruptSeen(s.chunks) || s.peek == Saw(true)
  }

  /** The calls for the `n`-th event. */
  function ChunkSteps(runId: string, c: Chunk, n: nat): seq<Step>
    requires c.Event?
  {
    [Step(Broker(GenerateEventId(runId, n)), c.broker), Step(Store(GenerateEventId(runId, n)), c.store)]
  }

  /** The calls from chunk `k` on, after `n` events. */
  function StepsFrom(runId: string, chunks: seq<Chunk>, k: nat, n: nat): seq<Step>
    requires k <= |chunks|
    decreases |chunks| - k
  {
    if k == |chunks| then []
    else if chunks[k].Skipped? then StepsFrom(runId, chunks, k + 1, n)
    else ChunkSteps(runId, chunks[k], n + 1) + StepsFrom(runId, chunks, k + 1, n + 1)
  }

  function EventSteps(runId: string, chunks: seq<Chunk>): seq<Step> {
    StepsFrom(runId, chunks, 0, 0)
  }

  function PeekSteps(s: Script): seq<Step> {
    if InterruptSeen(s.chunks) then []
    else [Step(NoEffect, if s.peek.PeekCancelled? then Breaks(true, false) else Fine)]
  }

  /** How a body that goes through leaves the run. */
  function EndUpdate(s: Script): RunUpdate {
    RunUpdate(if Interrupts(s) then InterruptedRun else Completed, Some(FinalOutput(s.chunks)), None)
  }

  /** How a handler leaves the run. */
  function BrokenUpdate(s: Script, cancelled: bool): RunUpdate {
    if cancelled then RunUpdate(CancelledRun, Some(EMPTY_OUTPUT), None)
    else RunUpdate(FailedRun, Some(EMPTY_OUTPUT), Some(s.error))
  }

  function FinalSteps(s: Script): seq<Step> {
    [Step(SetRun(EndUpdate(s)), s.finalRun),
     Step(SetThread(if Interrupts(s) then Interrupted else Idle), s.finalThread)]
  }

  function OpeningSteps(s: Script): seq<Step> {
    [Step(SetRun(STARTED), s.running), Step(NoEffect, s.setup)]
  }

  function ClosingSteps(s: Script): seq<Step> {
    [Step(NoEffect, s.streamEnd)] + (PeekSteps(s) + FinalSteps(s))
  }

  function BodySteps(runId: string, s: Script): seq<Step> {
    OpeningSteps(s) + (EventSteps(runId, s.chunks) + ClosingSteps(s))
  }

  function HandlerSteps(s: Script, cancelled: bool): seq<Step> {
    [Step(SetRun(BrokenUpdate(s, cancelled)), s.handlerRun),
     Step(SetThread(Idle), s.handlerThread), Step(NoEffect, s.signal)]
  }

  function Effects(runId: string, s: Script): seq<Effect> {
    var fault := FirstFault(BodySteps(runId, s));
    Happened(BodySteps(runId, s))
    + if fault.None? then [] else Happened(HandlerSteps(s, fault.value.cancelled))
  }

  lemma {:induction false} StepsJoin(a: seq<Step>, b: seq<Step>)
    ensures FirstFault(a + b) == if FirstFault(a).None? then FirstFault(b) else FirstFault(a)
    ensures Happened(a + b) == if FirstFault(a).None? then Happened(a) + Happened(b) else Happened(a)
  {
    if a == [] {
      assert a + b == b;
    } else {
      assert (a + b)[1..] == a[1..] + b;
      StepsJoin(a[1..], b);
    }
  }

  lemma {:induction false} AppliedJoin(w: World, runId: string, threadId: string, a: seq<Effect>, b: seq<Effect>)
    ensures AllApplied(w, runId, threadId, a + b)
         == AllApplied(AllApplied(w, runId, threadId, a), runId, threadId, b)
  {
    if b == [] {
      assert a + b == a;
    } else {
      assert (a + b)[..|a + b| - 1] == a + b[..|b| - 1];
      AppliedJoin(w, runId, threadId, a, b[..|b| - 1]);
    }
  }

  /** The world after the steps that go ahead. */
  function After(w: World, runId: string, threadId: string, steps: seq<Step>): World {
    AllApplied(w, runId, threadId, Happened(steps))
  }

  /** One more step, or several, after steps that all went well. */
  lemma NextSteps(w: World, runId: string, threadId: string, a: seq<Step>, b: seq<Step>)
    requires FirstFault(a).None?
    ensures FirstFault(a + b) == FirstFault(b)
    ensures After(w, runId, threadId, a + b) == After(After(w, runId, threadId, a), runId, threadId, b)
  {
    StepsJoin(a, b);
    AppliedJoin(w, runId, threadId, Happened(a), Happened(b));
  }

  function Performed(w: World, runId: string, threadId: string, step: Step): World {
    if TakesEffect(step.await) then Applied(w, runId, threadId, step.effect) else w
  }

  lemma OneStep(w: World, runId: string, threadId: string, step: Step)
    ensures FirstFault([step]) == if step.await.Fine? then None else Some(step.await)
    ensures After(w, runId, threadId, [step]) == Performed(w, runId, threadId, step)
  {
    assert [step][1..] == [];
    var es := [step.effect];
    assert es[..|es| - 1] == [];
    assert Happened([step]) == if TakesEffect(step.await) then es else [];
    assert AllApplied(w, runId, threadId, es)
         == Applied(AllApplied(w, runId, threadId, []), runId, threadId, step.effect);
  }

  lemma FirstStep(w: World, runId: string, threadId: string, step: Step, rest: seq<Step>)
    ensures FirstFault([step] + rest) == if step.await.Fine? then FirstFault(rest) else Some(step.await)
    ensures After(w, runId, threadId, [step] + rest)
         == if step.await.Fine? then After(Performed(w, runId, threadId, step), runId, threadId, rest)
            else Performed(w, runId, threadId, step)
  {
    OneStep(w, runId, threadId, step);
    if step.await.Fine? {
      NextSteps(w, runId, threadId, [step], rest);
    } else {
      Stopped(w, runId, threadId, [step], rest);
    }
  }

  lemma Stopped(w: World, runId: string, threadId: string, a: seq<Step>, b: seq<Step>)
    requires FirstFault(a).Some?
    ensures FirstFault(a + b) == FirstFault(a)
    ensures After(w, runId, threadId, a + b) == After(w, runId, threadId, a)
  {
    StepsJoin(a, b);
  }

  // ---------------------------------------------------------------------------
  // The service
  // ---------------------------------------------------------------------------

  datatype Creation = Creation(assistantFound: bool, busy: Await, metadata: Await, insert: Await)

  /** The reply to a request for a run, or that its next part can go on. */
  datatype Reply = Passes | NotFound | NotInterrupted | Broke | Created

  /** First its checks: a resume needs an interrupted thread, and every run an assistant. */
  function CheckReply(w: World, threadId: string, resume: bool, assistantFound: bool): Reply {
    if resume && threadId !in w.threads then NotFound
    else if resume && w.threads[threadId] != Interrupted then NotInterrupted
    else if !assistantFound then NotFound
    else Passes
  }

  /** Then it marks the thread busy. */
  function MarkReply(w: World, threadId: string, busy: Await): Reply {
    if !busy.Fine? then Broke else if threadId !in w.threads then NotFound else Passes
  }

  /** Then it writes the thread's metadata and the run row, and starts the task. */
  function LaunchReply(metadata: Await, insert: Await): Reply {
    if metadata.Fine? && insert.Fine? then Created else Broke
  }

  function CreationReply(w: World, threadId: string, resume: bool, c: Creation): Reply {
    var check, mark := CheckReply(w, threadId, resume, c.assistantFound), MarkReply(w, threadId, c.busy);
    if !check.Passes? then check else if !mark.Passes? then mark else LaunchReply(c.metadata, c.insert)
  }

  function AfterMark(w: World, threadId: string, busy: Await): World {
    if TakesEffect(busy) && threadId in w.threads then w.(threads := w.threads[threadId := Busy]) else w
  }

  function AfterLaunch(w: World, runId: string, metadata: Await, insert: Await): World {
    if metadata.Fine? && TakesEffect(insert) then w.(runs := w.runs[runId := RunRow(Pending, None, None)]) else w
  }

  /** The world after a creation, as far as it gets. */
  function AfterCreation(w: World, runId: string, threadId: string, resume: bool, c: Creation): World {
    if !CheckReply(w, threadId, resume, c.assistantFound).Passes? then w
    else if !MarkReply(w, threadId, c.busy).Passes? then AfterMark(w, threadId, c.busy)
    else AfterLaunch(AfterMark(w, threadId, c.busy), runId, c.metadata, c.insert)
  }

  class RunService {
    var world: World
    var active: set<string>

    constructor (threads: set<string>)
      ensures world == World(map t | t in threads :: Idle, map[], map[], map[]) && active == {}
    {
      world := World(map t | t in threads :: Idle, map[], map[], map[]);
      active := {};
    }

    method UpdateRunStatus(runId: string, u: RunUpdate, a: Await)
      modifies this`world
      ensures forall threadId :: world == Performed(old(world), runId, threadId, Step(SetRun(u), a))
    {
      if TakesEffect(a) && runId in world.runs {
        world := world.(runs := world.runs[runId := Updated(world.runs[runId], u)]);
      }
    }

    method SetThreadStatus(threadId: string, status: ThreadStatus, a: Await)
      modifies this`world
      ensures forall runId :: world == Performed(old(world), runId, threadId, Step(SetThread(status), a))
    {
      if TakesEffect(a) && threadId in world.threads {
        world := world.(threads := world.threads[threadId := status]);
      }
    }

    method PutToBroker(runId: string, eventId: string, a: Await)
      modifies this`world
      ensures forall threadId :: world == Performed(old(world), runId, threadId, Step(Broker(eventId), a))
    {
      if TakesEffect(a) {
        world := world.(brokered := world.brokered[runId := IdsOf(world.brokered, runId) + [eventId]]);
      }
    }

    method StoreEvent(runId: string, eventId: string, a: Await)
      modifies this`world
      ensures forall threadId :: world == Performed(old(world), runId, threadId, Step(Store(eventId), a))
    {
      if TakesEffect(a) {
        world := world.(stored := world.stored[runId := IdsOf(world.stored, runId) + [eventId]]);
      }
    }

    /** First live consumers get the event, then it is stored for replay. */
    method ForwardEvent(runId: string, ghost threadId: string, c: Chunk, n: nat) returns (fault: Option<Await>)
      requires c.Event?
      modifies this`world
      ensures fault == FirstFault(ChunkSteps(runId, c, n))
      ensures world == After(old(world), runId, threadId, ChunkSteps(runId, c, n))
    {
      EventInTwo(world, runId, threadId, c, n);
      var eventId := GenerateEventId(runId, n);
      PutToBroker(runId, eventId, c.broker);
      if c.broker.Breaks? {
        return Some(c.broker);
      }
      StoreEvent(runId, eventId, c.store);
      return if c.store.Breaks? then Some(c.store) else None;
    }

    /** The stream loop; `hasInterrupt` and `output` are only meaningful when nothing broke. */
    method StreamEvents(runId: string, ghost threadId: string, chunks: seq<Chunk>)
      returns (fault: Option<Await>, hasInterrupt: bool, output: string)
      modifies this`world
      ensures fault == FirstFault(EventSteps(runId, chunks))
      ensures world == After(old(world), runId, threadId, EventSteps(runId, chunks))
      ensures fault.None? ==> hasInterrupt == InterruptSeen(chunks) && output == FinalOutput(chunks)
    {
      ghost var steps := EventSteps(runId, chunks);
      ghost var last, end := FirstFault(steps), After(world, runId, threadId, steps);
      var eventCounter, i := 0, 0;
      hasInterrupt, output := false, EMPTY_OUTPUT;
      while i < |chunks|
        invariant 0 <= i <= |chunks|
        invariant hasInterrupt || InterruptFrom(chunks, i) <==> InterruptSeen(chunks)
        invariant OutputFrom(chunks, i, output) == FinalOutput(chunks)
        invariant LeadsTo(world, runId, threadId, chunks, i, eventCounter, last, end)
      {
        if chunks[i].Event? {
          ghost var w := world;
          eventCounter := eventCounter + 1;
          fault := ForwardEvent(runId, threadId, chunks[i], eventCounter);
          EventLeads(w, world, runId, threadId, chunks, i, eventCounter, last, end);
          if fault.Some? {
            return;
          }
          if chunks[i].interrupt {
            hasInterrupt := true;
          }
          if chunks[i].values.Some? {
            output := chunks[i].values.value;
          }
        }
        i := i + 1;
      }
      fault := None;
    }

    method Close(runId: string, threadId: string, s: Script, seen: bool, output: string) returns (fault: Option<Await>)
      requires seen == InterruptSeen(s.chunks) && output == FinalOutput(s.chunks)
      modifies this`world
      ensures fault == FirstFault(ClosingSteps(s))
      ensures world == After(old(world), runId, threadId, ClosingSteps(s))
    {
      ghost var w := world;
      var hasInterrupt := seen;
      ghost var final := FinalSteps(s);
      FirstStep(w, runId, threadId, Step(NoEffect, s.streamEnd), PeekSteps(s) + final);
      if s.streamEnd.Breaks? {
        return Some(s.streamEnd);
      }
      if !hasInterrupt {
        FirstStep(w, runId, threadId, PeekSteps(s)[0], final);
        if s.peek.PeekCancelled? {
          return Some(Breaks(true, false));
        }
        hasInterrupt := s.peek == Saw(true);
      } else {
        assert PeekSteps(s) + final == final;
      }
      FinalInTwo(w, runId, threadId, s);
      var status := if hasInterrupt then InterruptedRun else Completed;
      UpdateRunStatus(runId, RunUpdate(status, Some(output), None), s.finalRun);
      if s.finalRun.Breaks? {
        return Some(s.finalRun);
      }
      SetThreadStatus(threadId, if hasInterrupt then Interrupted else Idle, s.finalThread);
      return if s.finalThread.Breaks? then Some(s.finalThread) else None;
    }

    method TryBody(runId: string, threadId: string, s: Script) returns (fault: Option<Await>)
      modifies this`world
      ensures fault == FirstFault(BodySteps(runId, s))
      ensures world == After(old(world), runId, threadId, BodySteps(runId, s))
    {
      OpeningInTwo(world, runId, threadId, s, EventSteps(runId, s.chunks) + ClosingSteps(s));
      UpdateRunStatus(runId, STARTED, s.running);
      if s.running.Breaks? {
        return Some(s.running);
      }
      if s.setup.Breaks? {
        return Some(s.setup);
      }
      ghost var w := world;
      var hasInterrupt, output;
      fault, hasInterrupt, output := StreamEvents(runId, threadId, s.chunks);
      if fault.Some? {
        Stopped(w, runId, threadId, EventSteps(runId, s.chunks), ClosingSteps(s));
        return;
      }
      NextSteps(w, runId, threadId, EventSteps(runId, s.chunks), ClosingSteps(s));
      fault := Close(runId, threadId, s, hasInterrupt, output);
    }

    method Handle(runId: string, threadId: string, s: Script, cancelled: bool)
      modifies this`world
      ensures world == After(old(world), runId, threadId, HandlerSteps(s, cancelled))
    {
      HandlerInTwo(world, runId, threadId, s, cancelled);
      UpdateRunStatus(runId, BrokenUpdate(s, cancelled), s.handlerRun);
      if s.handlerRun.Breaks? {
        return;
      }
      SetThreadStatus(threadId, Idle, s.handlerThread);
    }

    /** The whole task: its body, its handlers, and the cleanup that comes last whatever happens. */
    method ExecuteRunAsync(runId: string, threadId: string, s: Script)
      modifies this
      ensures world == AllApplied(old(world), runId, threadId, Effects(runId, s))
      ensures active == if s.cleanup.Fine? then old(active) - {runId} else old(active)
    {
      ghost var w := world;
      var fault := TryBody(runId, threadId, s);
      TaskInTwo(w, runId, threadId, s);
      if fault.Some? {
        Handle(runId, threadId, s, fault.value.cancelled);
      }
      if s.cleanup.Fine? {
        active := active - {runId};
      }
    }

    method CheckRun(threadId: string, resume: bool, assistantFound: bool) returns (r: Reply)
      ensures r == CheckReply(world, threadId, resume, assistantFound)
      ensures r == NotInterrupted
         <==> resume && threadId in world.threads && world.threads[threadId] != Interrupted
      ensures r == Passes
         <==> assistantFound && (resume ==> threadId in world.threads && world.threads[threadId] == Interrupted)
      ensures r == Passes || r == NotInterrupted || r == NotFound
    {
      if resume {
        if threadId !in world.threads {
          return NotFound;
        }
        if world.threads[threadId] != Interrupted {
          return NotInterrupted;
        }
      }
      return if assistantFound then Passes else NotFound;
    }

    method MarkRun(threadId: string, busy: Await) returns (r: Reply)
      modifies this`world
      ensures r == MarkReply(old(world), threadId, busy) && world == AfterMark(old(world), threadId, busy)
      ensures r == (if busy.Breaks? then Broke else if threadId in old(world).threads then Passes else NotFound)
      ensures threadId in old(world).threads ==>
                threadId in world.threads
                && world.threads[threadId] == if busy.Fine? || busy.applied then Busy else old(world).threads[threadId]
    {
      ghost var w := world;
      SetThreadStatus(threadId, Busy, busy);
      assert world == Performed(w, "", threadId, Step(SetThread(Busy), busy));
      if busy.Breaks? {
        return Broke;
      }
      return if threadId in world.threads then Passes else NotFound;
    }

    method LaunchRun(runId: string, metadata: Await, insert: Await) returns (r: Reply)
      modifies this
      ensures r == LaunchReply(metadata, insert) && world == AfterLaunch(old(world), runId, metadata, insert)
      ensures r == Created || r == Broke
      ensures r == Created <==> metadata.Fine? && insert.Fine?
      ensures r == Created ==> runId in world.runs && world.runs[runId] == RunRow(Pending, None, None)
      ensures active == if r.Created? then old(active) + {runId} else old(active)
    {
      if metadata.Breaks? {
        return Broke;
      }
      if TakesEffect(insert) {
        world := world.(runs := world.runs[runId := RunRow(Pending, None, None)]);
      }
      if insert.Breaks? {
        return Broke;
      }
      active := active + {runId};
      return Created;
    }

    /** The three parts of a creation, with nothing in between. */
    method CreateRun(runId: string, threadId: string, resume: bool, c: Creation) returns (r: Reply)
      modifies this
      ensures r == CreationReply(old(world), threadId, resume, c)
      ensures world == AfterCreation(old(world), runId, threadId, resume, c)
      ensures r == Created ==> runId in world.runs && world.runs[runId] == RunRow(Pending, None, None)
      ensures active == if r.Created? then old(active) + {runId} else old(active)
    {
      r := CheckRun(threadId, resume, c.assistantFound);
      if r.Passes? {
        r := MarkRun(threadId, c.busy);
        if r.Passes? {
          r := LaunchRun(runId, c.metadata, c.insert);
        }
      }
    }
  }

  lemma TaskInTwo(w: World, runId: string, threadId: string, s: Script)
    ensures var fault, body := FirstFault(BodySteps(runId, s)), After(w, runId, threadId, BodySteps(runId, s));
            AllApplied(w, runId, threadId, Effects(runId, s)) ==
            if fault.None? then body else After(body, runId, threadId, HandlerSteps(s, fault.value.cancelled))
  {
    var fault := FirstFault(BodySteps(runId, s));
    if fault.Some? {
      AppliedJoin(w, runId, threadId, Happened(BodySteps(runId, s)), Happened(HandlerSteps(s, fault.value.cancelled)));
    } else {
      assert Effects(runId, s) == Happened(BodySteps(runId, s));
    }
  }

  lemma FinalInTwo(w: World, runId: string, threadId: string, s: Script)
    ensures FirstFault(FinalSteps(s))
         == if s.finalRun.Breaks? then Some(s.finalRun) else if s.finalThread.Breaks? then Some(s.finalThread) else None
    ensures After(w, runId, threadId, FinalSteps(s))
         == var run := Performed(w, runId, threadId, FinalSteps(s)[0]);
            if s.finalRun.Fine? then Performed(run, runId, threadId, FinalSteps(s)[1]) else run
  {
    var steps := FinalSteps(s);
    assert steps == [steps[0]] + [steps[1]];
    FirstStep(w, runId, threadId, steps[0], [steps[1]]);
    OneStep(Performed(w, runId, threadId, steps[0]), runId, threadId, steps[1]);
  }

  lemma OpeningInTwo(w: World, runId: string, threadId: string, s: Script, rest: seq<Step>)
    ensures FirstFault(OpeningSteps(s) + rest)
         == if s.running.Breaks? then Some(s.running) else if s.setup.Breaks? then Some(s.setup) else FirstFault(rest)
    ensures After(w, runId, threadId, OpeningSteps(s) + rest)
         == var run := Performed(w, runId, threadId, Step(SetRun(STARTED), s.running));
            if s.running.Fine? && s.setup.Fine? then After(run, runId, threadId, rest) else run
  {
    var steps := OpeningSteps(s);
    assert steps + rest == [steps[0]] + ([steps[1]] + rest);
    FirstStep(w, runId, threadId, steps[0], [steps[1]] + rest);
    FirstStep(Performed(w, runId, threadId, steps[0]), runId, threadId, steps[1], rest);
  }

  lemma HandlerInTwo(w: World, runId: string, threadId: string, s: Script, cancelled: bool)
    ensures After(w, runId, threadId, HandlerSteps(s, cancelled))
         == var run := Performed(w, runId, threadId, HandlerSteps(s, cancelled)[0]);
            if s.handlerRun.Fine? then Performed(run, runId, threadId, HandlerSteps(s, cancelled)[1]) else run
  {
    var steps := HandlerSteps(s, cancelled);
    assert steps == [steps[0]] + ([steps[1]] + [steps[2]]);
    FirstStep(w, runId, threadId, steps[0], [steps[1]] + [steps[2]]);
    var run := Performed(w, runId, threadId, steps[0]);
    FirstStep(run, runId, threadId, steps[1], [steps[2]]);
    OneStep(Performed(run, runId, threadId, steps[1]), runId, threadId, steps[2]);
  }

  lemma ChunkFirst(w: World, runId: string, threadId: string, chunks: seq<Chunk>, k: nat, n: nat)
    requires k < |chunks| && chunks[k].Event?
    ensures var next, rest := ChunkSteps(runId, chunks[k], n + 1), StepsFrom(runId, chunks, k + 1, n + 1);
            var u := After(w, runId, threadId, next);
            && FirstFault(StepsFrom(runId, chunks, k, n))
               == (if FirstFault(next).None? then FirstFault(rest) else FirstFault(next))
            && After(w, runId, threadId, StepsFrom(runId, chunks, k, n))
            == (if FirstFault(next).None? then After(u, runId, threadId, rest) else u)
  {
    var next, rest := ChunkSteps(runId, chunks[k], n + 1), StepsFrom(runId, chunks, k + 1, n + 1);
    if FirstFault(next).None? {
      NextSteps(w, runId, threadId, next, rest);
    } else {
      Stopped(w, runId, threadId, next, rest);
    }
  }

  /** From `w`, the calls from chunk `i` on, after `n` events, end with this fault in this world. */
  ghost predicate LeadsTo(w: World, runId: string, threadId: string, chunks: seq<Chunk>, i: nat, n: nat,
                          last: Option<Await>, end: World)
    requires i <= |chunks|
  {
    FirstFault(StepsFrom(runId, chunks, i, n)) == last
    && After(w, runId, threadId, StepsFrom(runId, chunks, i, n)) == end
  }

  lemma EventLeads(w: World, u: World, runId: string, threadId: string, chunks: seq<Chunk>, i: nat, n: nat,
                   last: Option<Await>, end: World)
    requires i < |chunks| && chunks[i].Event? && n >= 1 && LeadsTo(w, runId, threadId, chunks, i, n - 1, last, end)
    requires u == After(w, runId, threadId, ChunkSteps(runId, chunks[i], n))
    ensures var fault := FirstFault(ChunkSteps(runId, chunks[i], n));
            if fault.None? then LeadsTo(u, runId, threadId, chunks, i + 1, n, last, end)
            else fault == last && u == end
  {
    ChunkFirst(w, runId, threadId, chunks, i, n - 1);
  }

  /** One event: its two calls. */
  lemma EventInTwo(w: World, runId: string, threadId: string, c: Chunk, n: nat)
    requires c.Event?
    ensures FirstFault(ChunkSteps(runId, c, n))
         == if c.broker.Breaks? then Some(c.broker) else if c.store.Breaks? then Some(c.store) else None
    ensures After(w, runId, threadId, ChunkSteps(runId, c, n))
         == var put := Performed(w, runId, threadId, Step(Broker(GenerateEventId(runId, n)), c.broker));
            var store := Step(Store(GenerateEventId(runId, n)), c.store);
            if c.broker.Fine? then Performed(put, runId, threadId, store) else put
  {
    var steps := ChunkSteps(runId, c, n);
    assert steps == [steps[0]] + [steps[1]];
    FirstStep(w, runId, threadId, steps[0], [steps[1]]);
    OneStep(Performed(w, runId, threadId, steps[0]), runId, threadId, steps[1]);
  }
}
