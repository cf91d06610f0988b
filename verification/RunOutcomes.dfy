/** What the execution of a run leaves behind: its event ids, its thread's status and its own. */
module RunOutcomes {
  import opened Common
  import opened EventId
  import opened RunLifecycle

  // ---------------------------------------------------------------------------
  // Event ids
  // ---------------------------------------------------------------------------

  function BrokeredIds(es: seq<Effect>): seq<string> {
    if es == [] then []
    else BrokeredIds(es[..|es| - 1]) + if es[|es| - 1].Broker? then [es[|es| - 1].eventId] else []
  }

  function StoredIds(es: seq<Effect>): seq<string> {
    if es == [] then []
    else StoredIds(es[..|es| - 1]) + if es[|es| - 1].Store? then [es[|es| - 1].eventId] else []
  }

  /** The ids 1 to `n` of a run. */
  function IdsUpTo(runId: string, n: nat): seq<string> {
    seq(n, i requires 0 <= i < n => GenerateEventId(runId, i + 1))
  }

  lemma {:induction false} IdsJoin(a: seq<Effect>, b: seq<Effect>)
    ensures BrokeredIds(a + b) == BrokeredIds(a) + BrokeredIds(b)
    ensures StoredIds(a + b) == StoredIds(a) + StoredIds(b)
  {
    if b == [] {
      assert a + b == a;
    } else {
      assert (a + b)[..|a + b| - 1] == a + b[..|b| - 1];
      IdsJoin(a, b[..|b| - 1]);
    }
  }

  lemma AppliedIds(w: World, runId: string, threadId: string, e: Effect)
    ensures var u := Applied(w, runId, threadId, e);
            && IdsOf(u.brokered, runId) == IdsOf(w.brokered, runId) + (if e.Broker? then [e.eventId] else [])
            && IdsOf(u.stored, runId) == IdsOf(w.stored, runId) + (if e.Store? then [e.eventId] else [])
  {
  }

  lemma {:induction false} WorldIds(w: World, runId: string, threadId: string, es: seq<Effect>)
    ensures var u := AllApplied(w, runId, threadId, es);
            && IdsOf(u.brokered, runId) == IdsOf(w.brokered, runId) + BrokeredIds(es)
            && IdsOf(u.stored, runId) == IdsOf(w.stored, runId) + StoredIds(es)
  {
    if es != [] {
      var init := es[..|es| - 1];
      WorldIds(w, runId, threadId, init);
      AppliedIds(AllApplied(w, runId, threadId, init), runId, threadId, es[|es| - 1]);
    }
  }

  function PutIds(steps: seq<Step>): seq<string> {
    BrokeredIds(Happened(steps))
  }

  function KeptIds(steps: seq<Step>): seq<string> {
    StoredIds(Happened(steps))
  }

  lemma StepIdsJoin(a: seq<Step>, b: seq<Step>)
    ensures PutIds(a + b) == if FirstFault(a).None? then PutIds(a) + PutIds(b) else PutIds(a)
    ensures KeptIds(a + b) == if FirstFault(a).None? then KeptIds(a) + KeptIds(b) else KeptIds(a)
    ensures FirstFault(a + b) == if FirstFault(a).None? then FirstFault(b) else FirstFault(a)
  {
    StepsJoin(a, b);
    IdsJoin(Happened(a), Happened(b));
  }

  /** The ids from 1 on go to the broker and to the store, which is at most one behind. */
  ghost predicate InStep(runId: string, put: seq<string>, kept: seq<string>, b: nat, s: nat) {
    s <= b <= s + 1 && put == IdsUpTo(runId, b) && kept == IdsUpTo(runId, s)
  }

  lemma {:induction false} QuietEffects(es: seq<Effect>)
    requires forall i :: 0 <= i < |es| ==> !es[i].Broker? && !es[i].Store?
    ensures BrokeredIds(es) == [] && StoredIds(es) == []
  {
    if es != [] {
      QuietEffects(es[..|es| - 1]);
    }
  }

  lemma {:induction false} HappenedAmong(steps: seq<Step>, i: nat)
    requires i < |Happened(steps)|
    ensures exists j :: 0 <= j < |steps| && Happened(steps)[i] == steps[j].effect
  {
    if i == 0 {
      assert Happened(steps)[0] == steps[0].effect;
    } else {
      HappenedAmong(steps[1..], i - 1);
      var j :| 0 <= j < |steps| - 1 && Happened(steps[1..])[i - 1] == steps[1..][j].effect;
      assert steps[1..][j] == steps[j + 1];
    }
  }

  lemma QuietSteps(steps: seq<Step>)
    requires forall j :: 0 <= j < |steps| ==> !steps[j].effect.Broker? && !steps[j].effect.Store?
    ensures PutIds(steps) == [] && KeptIds(steps) == []
  {
    forall i | 0 <= i < |Happened(steps)| ensures !Happened(steps)[i].Broker? && !Happened(steps)[i].Store? {
      HappenedAmong(steps, i);
    }
    QuietEffects(Happened(steps));
  }

  lemma ChunkIds(runId: string, c: Chunk, n: nat) returns (b: nat, s: nat)
    requires c.Event?
    ensures s <= b <= 1 && (FirstFault(ChunkSteps(runId, c, n)).None? ==> b == s == 1)
    ensures PutIds(ChunkSteps(runId, c, n)) == if b == 1 then [GenerateEventId(runId, n)] else []
    ensures KeptIds(ChunkSteps(runId, c, n)) == if s == 1 then [GenerateEventId(runId, n)] else []
  {
    var steps := ChunkSteps(runId, c, n);
    assert steps == [steps[0]] + [steps[1]];
    StepsJoin([steps[0]], [steps[1]]);
    var put, kept := [steps[0].effect], [steps[1].effect];
    assert Happened([steps[0]]) == if TakesEffect(c.broker) then put else [];
    assert Happened([steps[1]]) == if TakesEffect(c.store) then kept else [];
    assert put[..0] == [] && kept[..0] == [];
    IdsJoin(put, kept);
    b := if TakesEffect(c.broker) then 1 else 0;
    s := if c.broker.Fine? && TakesEffect(c.store) then 1 else 0;
  }

  lemma MoreIds(runId: string, n: nat)
    ensures IdsUpTo(runId, n + 1) == IdsUpTo(runId, n) + [GenerateEventId(runId, n + 1)]
  {
  }

  /** The ids through `n`, and then those of some steps. */
  ghost predicate Handed(runId: string, n: nat, steps: seq<Step>, b: nat, s: nat) {
    InStep(runId, IdsUpTo(runId, n) + PutIds(steps), IdsUpTo(runId, n) + KeptIds(steps), b, s)
  }

  lemma NothingHanded(runId: string, n: nat)
    ensures Handed(runId, n, [], n, n)
  {
    NothingAdded(IdsUpTo(runId, n));
  }

  lemma OneEventHanded(runId: string, c: Chunk, n: nat) returns (b: nat, s: nat)
    requires c.Event?
    ensures Handed(runId, n, ChunkSteps(runId, c, n + 1), b, s)
    ensures FirstFault(ChunkSteps(runId, c, n + 1)).None? ==> b == s == n + 1
  {
    MoreIds(runId, n);
    NothingAdded(IdsUpTo(runId, n));
    var b', s' := ChunkIds(runId, c, n + 1);
    b, s := n + b', n + s';
  }

  lemma Reassociate(a: seq<string>, b: seq<string>, c: seq<string>)
    ensures a + b + c == a + (b + c)
  {
  }

  /** After one event in which nothing breaks come the ids of the rest. */
  lemma HandedOn(runId: string, n: nat, next: seq<Step>, rest: seq<Step>, b: nat, s: nat)
    requires FirstFault(next).None? && Handed(runId, n, next, n + 1, n + 1) && Handed(runId, n + 1, rest, b, s)
    ensures Handed(runId, n, next + rest, b, s)
  {
    StepIdsJoin(next, rest);
    Reassociate(IdsUpTo(runId, n), PutIds(next), PutIds(rest));
    Reassociate(IdsUpTo(runId, n), KeptIds(next), KeptIds(rest));
  }

  lemma HandedAndStopped(runId: string, n: nat, next: seq<Step>, rest: seq<Step>, b: nat, s: nat)
    requires FirstFault(next).Some? && Handed(runId, n, next, b, s)
    ensures Handed(runId, n, next + rest, b, s) && FirstFault(next + rest).Some?
  {
    StepIdsJoin(next, rest);
  }

  lemma {:induction false} StreamIds(runId: string, chunks: seq<Chunk>, k: nat, n: nat) returns (b: nat, s: nat)
    requires k <= |chunks|
    ensures Handed(runId, n, StepsFrom(runId, chunks, k, n), b, s)
    ensures FirstFault(StepsFrom(runId, chunks, k, n)).None? ==> b == s == n + EventsFrom(chunks, k)
    decreases |chunks| - k
  {
    if k == |chunks| {
      NothingHanded(runId, n);
      b, s := n, n;
    } else if chunks[k].Skipped? {
      b, s := StreamIds(runId, chunks, k + 1, n);
    } else {
      var next, rest := ChunkSteps(runId, chunks[k], n + 1), StepsFrom(runId, chunks, k + 1, n + 1);
      b, s := OneEventHanded(runId, chunks[k], n);
      if FirstFault(next).None? {
        b, s := StreamIds(runId, chunks, k + 1, n + 1);
        HandedOn(runId, n, next, rest, b, s);
        StepIdsJoin(next, rest);
      } else {
        HandedAndStopped(runId, n, next, rest, b, s);
      }
    }
  }

  lemma NothingAdded(ids: seq<string>)
    ensures [] + ids == ids && ids + [] == ids && [] + (ids + []) == ids
  {
  }

  lemma BodyIds(runId: string, script: Script) returns (b: nat, s: nat)
    ensures InStep(runId, PutIds(BodySteps(runId, script)), KeptIds(BodySteps(runId, script)), b, s)
    ensures FirstFault(BodySteps(runId, script)).None? ==> b == s == Events(script.chunks)
  {
    var opening, events, closing := OpeningSteps(script), EventSteps(runId, script.chunks), ClosingSteps(script);
    QuietSteps(opening);
    QuietSteps(closing);
    StepIdsJoin(opening, events + closing);
    StepIdsJoin(events, closing);
    NothingAdded(PutIds(events));
    NothingAdded(KeptIds(events));
    b, s := StreamIds(runId, script.chunks, 0, 0);
    if FirstFault(opening).Some? {
      b, s := 0, 0;
    }
  }

  /** Whatever breaks, broker and store are handed the same ids, 1, 2, 3 and so on without a gap; the
      store is at most one behind, and not at all after a body that ran to its end. */
  lemma IdsAreGapFree(w: World, runId: string, threadId: string, script: Script) returns (b: nat, s: nat)
    requires runId !in w.brokered && runId !in w.stored
    ensures var u := AllApplied(w, runId, threadId, Effects(runId, script));
            && s <= b <= s + 1
            && IdsOf(u.brokered, runId) == IdsUpTo(runId, b) && IdsOf(u.stored, runId) == IdsUpTo(runId, s)
    ensures FirstFault(BodySteps(runId, script)).None? ==> b == s == Events(script.chunks)
  {
    b, s := BodyIds(runId, script);
    var fault := FirstFault(BodySteps(runId, script));
    WorldIds(w, runId, threadId, Effects(runId, script));
    if fault.Some? {
      var handler := HandlerSteps(script, fault.value.cancelled);
      QuietSteps(handler);
      IdsJoin(Happened(BodySteps(runId, script)), Happened(handler));
    } else {
      assert Effects(runId, script) == Happened(BodySteps(runId, script));
    }
  }

  /** The ids handed over for a run whose id is a UUID are read back as 1, 2, 3 and so on. */
  lemma IdsReadBack(runId: string, n: nat, i: nat)
    requires (forall c :: c in runId ==> IsDigit(c) || 'a' <= c <= 'f' || c == '-') && i < n
    ensures ExtractEventSequence(IdsUpTo(runId, n)[i]) == i + 1
  {
    UuidRoundTrips(runId, i + 1);
  }

  // ---------------------------------------------------------------------------
  // The thread's status
  // ---------------------------------------------------------------------------

  /** The statuses an execution writes to its thread, in order. */
  function ThreadWrites(es: seq<Effect>): seq<ThreadStatus> {
    if es == [] then []
    else ThreadWrites(es[..|es| - 1]) + if es[|es| - 1].SetThread? then [es[|es| - 1].thread] else []
  }

  lemma {:induction false} WritesJoin(a: seq<Effect>, b: seq<Effect>)
    ensures ThreadWrites(a + b) == ThreadWrites(a) + ThreadWrites(b)
  {
    if b == [] {
      assert a + b == a;
    } else {
      assert (a + b)[..|a + b| - 1] == a + b[..|b| - 1];
      WritesJoin(a, b[..|b| - 1]);
    }
  }

  lemma {:induction false} NoWrites(es: seq<Effect>)
    requires forall i :: 0 <= i < |es| ==> !es[i].SetThread?
    ensures ThreadWrites(es) == []
  {
    if es != [] {
      NoWrites(es[..|es| - 1]);
    }
  }

  predicate NoThreadStep(steps: seq<Step>) {
    forall j :: 0 <= j < |steps| ==> !steps[j].effect.SetThread?
  }

  lemma StepsWriteNothing(steps: seq<Step>)
    requires NoThreadStep(steps)
    ensures ThreadWrites(Happened(steps)) == []
  {
    forall i | 0 <= i < |Happened(steps)| ensures !Happened(steps)[i].SetThread? {
      HappenedAmong(steps, i);
    }
    NoWrites(Happened(steps));
  }

  lemma StepWritesJoin(a: seq<Step>, b: seq<Step>)
    requires ThreadWrites(Happened(a)) == []
    ensures ThreadWrites(Happened(a + b)) == if FirstFault(a).None? then ThreadWrites(Happened(b)) else []
    ensures FirstFault(a + b) == if FirstFault(a).None? then FirstFault(b) else FirstFault(a)
  {
    StepsJoin(a, b);
    WritesJoin(Happened(a), Happened(b));
  }

  lemma PairWrites(run: Step, thread: Step)
    requires run.effect.SetRun? && thread.effect.SetThread?
    ensures ThreadWrites(Happened([run, thread]))
         == if run.await.Fine? && TakesEffect(thread.await) then [thread.effect.thread] else []
    ensures FirstFault([run, thread]).None? <==> run.await.Fine? && thread.await.Fine?
  {
    assert [run, thread] == [run] + [thread];
    StepsWriteNothing([run]);
    StepWritesJoin([run], [thread]);
    var es := [thread.effect];
    assert es[..|es| - 1] == [];
    assert Happened([thread]) == if TakesEffect(thread.await) then es else [];
  }

  lemma {:induction false} EventsWriteNothing(runId: string, chunks: seq<Chunk>, k: nat, n: nat)
    requires k <= |chunks|
    ensures NoThreadStep(StepsFrom(runId, chunks, k, n))
    decreases |chunks| - k
  {
    if k < |chunks| {
      if chunks[k].Skipped? {
        EventsWriteNothing(runId, chunks, k + 1, n);
      } else {
        EventsWriteNothing(runId, chunks, k + 1, n + 1);
        assert NoThreadStep(ChunkSteps(runId, chunks[k], n + 1));
      }
    }
  }

  /** The body got as far as its last write. */
  predicate ReachesEnd(runId: string, s: Script) {
    FirstFault(OpeningSteps(s)).None? && FirstFault(EventSteps(runId, s.chunks)).None?
    && s.streamEnd.Fine? && (InterruptSeen(s.chunks) || !s.peek.PeekCancelled?) && s.finalRun.Fine?
  }

  function EndStatus(s: Script): ThreadStatus {
    if Interrupts(s) then Interrupted else Idle
  }

  lemma ClosingWrites(s: Script)
    ensures var steps, ends := ClosingSteps(s),
                s.streamEnd.Fine? && (InterruptSeen(s.chunks) || !s.peek.PeekCancelled?) && s.finalRun.Fine?;
            && ThreadWrites(Happened(steps)) == (if ends && TakesEffect(s.finalThread) then [EndStatus(s)] else [])
            && (FirstFault(steps).None? <==> ends && s.finalThread.Fine?)
  {
    var first, peek, final := [Step(NoEffect, s.streamEnd)], PeekSteps(s), FinalSteps(s);
    StepsWriteNothing(first);
    StepsWriteNothing(peek);
    OneStep(ANY_WORLD, "", "", first[0]);
    StepWritesJoin(first, peek + final);
    StepWritesJoin(peek, final);
    PairWrites(final[0], final[1]);
    if peek != [] {
      OneStep(ANY_WORLD, "", "", peek[0]);
    }
  }

  lemma BodyWrites(runId: string, s: Script)
    ensures ThreadWrites(Happened(BodySteps(runId, s)))
         == if ReachesEnd(runId, s) && TakesEffect(s.finalThread) then [EndStatus(s)] else []
    ensures FirstFault(BodySteps(runId, s)).None? <==> ReachesEnd(runId, s) && s.finalThread.Fine?
  {
    var opening, events, closing := OpeningSteps(s), EventSteps(runId, s.chunks), ClosingSteps(s);
    StepsWriteNothing(opening);
    EventsWriteNothing(runId, s.chunks, 0, 0);
    StepsWriteNothing(events);
    StepWritesJoin(opening, events + closing);
    StepWritesJoin(events, closing);
    ClosingWrites(s);
  }

  lemma HandlerWrites(s: Script, cancelled: bool)
    ensures ThreadWrites(Happened(HandlerSteps(s, cancelled)))
         == if s.handlerRun.Fine? && TakesEffect(s.handlerThread) then [Idle] else []
  {
    var steps := HandlerSteps(s, cancelled);
    assert steps == [steps[0], steps[1]] + [steps[2]];
    StepsJoin([steps[0], steps[1]], [steps[2]]);
    PairWrites(steps[0], steps[1]);
    StepsWriteNothing([steps[2]]);
    WritesJoin(Happened([steps[0], steps[1]]), Happened([steps[2]]));
  }

  /** The body ran to its end. */
  predicate RunsToEnd(runId: string, s: Script) {
    ReachesEnd(runId, s) && s.finalThread.Fine?
  }

  predicate HandlerGetsToWrite(s: Script) {
    s.handlerRun.Fine? && TakesEffect(s.handlerThread)
  }

  /** The status an execution leaves on a thread that was `was`. */
  function LeftStatus(runId: string, s: Script, was: ThreadStatus): ThreadStatus {
    if RunsToEnd(runId, s) then EndStatus(s)
    else if HandlerGetsToWrite(s) then Idle
    else if ReachesEnd(runId, s) && TakesEffect(s.finalThread) then EndStatus(s)
    else was
  }

  lemma AppliedStatus(w: World, runId: string, threadId: string, e: Effect)
    requires threadId in w.threads
    ensures Applied(w, runId, threadId, e).threads
         == w.threads[threadId := if e.SetThread? then e.thread else w.threads[threadId]]
  {
  }

  function LastOr(writes: seq<ThreadStatus>, was: ThreadStatus): ThreadStatus {
    if writes == [] then was else writes[|writes| - 1]
  }

  lemma {:induction false} WorldStatus(w: World, runId: string, threadId: string, es: seq<Effect>)
    requires threadId in w.threads
    ensures AllApplied(w, runId, threadId, es).threads
         == w.threads[threadId := LastOr(ThreadWrites(es), w.threads[threadId])]
  {
    if es != [] {
      var init := es[..|es| - 1];
      WorldStatus(w, runId, threadId, init);
      AppliedStatus(AllApplied(w, runId, threadId, init), runId, threadId, es[|es| - 1]);
    }
  }

  /** What the whole execution writes. */
  lemma EffectsWrite(runId: string, s: Script)
    ensures ThreadWrites(Effects(runId, s))
         == (if ReachesEnd(runId, s) && TakesEffect(s.finalThread) then [EndStatus(s)] else [])
            + if !RunsToEnd(runId, s) && HandlerGetsToWrite(s) then [Idle] else []
  {
    BodyWrites(runId, s);
    var body, fault := Happened(BodySteps(runId, s)), FirstFault(BodySteps(runId, s));
    if fault.Some? {
      HandlerWrites(s, fault.value.cancelled);
      WritesJoin(body, Happened(HandlerSteps(s, fault.value.cancelled)));
    } else {
      assert Effects(runId, s) == body;
    }
  }

  /** An execution never marks its thread busy; it changes no other thread, and writes its own at most
      twice: once at the end of its body, and once more in a handler. */
  lemma StatusLeft(w: World, runId: string, threadId: string, s: Script)
    requires threadId in w.threads
    ensures Busy !in ThreadWrites(Effects(runId, s)) && |ThreadWrites(Effects(runId, s))| <= 2
    ensures AllApplied(w, runId, threadId, Effects(runId, s)).threads
         == w.threads[threadId := LeftStatus(runId, s, w.threads[threadId])]
  {
    EffectsWrite(runId, s);
    WorldStatus(w, runId, threadId, Effects(runId, s));
  }

  /** A busy thread stays busy exactly when a body that broke is followed by a handler that does not get
      to write, and the body's own last write did not take effect either. */
  lemma StuckBusyIff(w: World, runId: string, threadId: string, s: Script)
    requires threadId in w.threads && w.threads[threadId] == Busy
    ensures threadId in AllApplied(w, runId, threadId, Effects(runId, s)).threads
    ensures AllApplied(w, runId, threadId, Effects(runId, s)).threads[threadId] == Busy
       <==> FirstFault(BodySteps(runId, s)).Some? && !HandlerGetsToWrite(s)
            && !(ReachesEnd(runId, s) && TakesEffect(s.finalThread))
  {
    StatusLeft(w, runId, threadId, s);
    BodyWrites(runId, s);
  }

  /** An execution whose first write breaks, and whose handler's first write breaks too: as when the database is
      unreachable. */
  const NO_WRITES :=
    Script(Breaks(false, false), Fine, [], Fine, Saw(false), Fine, Fine, Breaks(false, false), Fine, Fine, Fine, "")

  /** It leaves its thread busy. */
  lemma UnreachableDatabaseStaysBusy(w: World, runId: string, threadId: string)
    requires threadId in w.threads && w.threads[threadId] == Busy
    ensures var u := AllApplied(w, runId, threadId, Effects(runId, NO_WRITES));
            threadId in u.threads && u.threads[threadId] == Busy
  {
    StuckBusyIff(w, runId, threadId, NO_WRITES);
    var opening, rest := OpeningSteps(NO_WRITES), EventSteps(runId, []) + ClosingSteps(NO_WRITES);
    OpeningInTwo(w, runId, threadId, NO_WRITES, rest);
    OpeningInTwo(w, runId, threadId, NO_WRITES, []);
    assert opening + [] == opening;
  }

  // ---------------------------------------------------------------------------
  // The run's status
  // ---------------------------------------------------------------------------

  /** The last update that an execution makes to its run. */
  function RunWritten(es: seq<Effect>): Option<RunUpdate> {
    if es == [] then None
    else if es[|es| - 1].SetRun? then Some(es[|es| - 1].run)
    else RunWritten(es[..|es| - 1])
  }

  lemma {:induction false} LaterRunWins(a: seq<Effect>, b: seq<Effect>)
    requires RunWritten(b).Some?
    ensures RunWritten(a + b) == RunWritten(b)
  {
    var init := b[..|b| - 1];
    assert (a + b)[..|a + b| - 1] == a + init;
    if !b[|b| - 1].SetRun? {
      LaterRunWins(a, init);
    }
  }

  lemma LaterStepWins(a: seq<Step>, b: seq<Step>)
    requires FirstFault(a).None? && RunWritten(Happened(b)).Some?
    ensures RunWritten(Happened(a + b)) == RunWritten(Happened(b))
  {
    StepsJoin(a, b);
    LaterRunWins(Happened(a), Happened(b));
  }

  lemma RunFirst(run: Step, rest: seq<Step>)
    requires run.effect.SetRun? && TakesEffect(run.await)
    requires forall j :: 0 <= j < |rest| ==> !rest[j].effect.SetRun?
    ensures RunWritten(Happened([run] + rest)) == Some(run.effect.run)
  {
    var later := Happened(rest);
    forall i | 0 <= i < |later| ensures !later[i].SetRun? {
      HappenedAmong(rest, i);
    }
    assert ([run] + rest)[1..] == rest;
    var after := if run.await.Fine? then later else [];
    assert Happened([run] + rest) == [run.effect] + after;
    NoLaterRun(run.effect, after);
  }

  lemma {:induction false} NoLaterRun(e: Effect, later: seq<Effect>)
    requires e.SetRun? && forall i :: 0 <= i < |later| ==> !later[i].SetRun?
    ensures RunWritten([e] + later) == Some(e.run)
  {
    if later != [] {
      assert ([e] + later)[..|later|] == [e] + later[..|later| - 1];
      NoLaterRun(e, later[..|later| - 1]);
    }
  }

  lemma {:induction false} WorldRun(w: World, runId: string, threadId: string, es: seq<Effect>)
    requires runId in w.runs
    ensures var u := AllApplied(w, runId, threadId, es).runs;
            runId in u && (RunWritten(es).Some? ==> WrittenBy(u[runId], RunWritten(es).value))
  {
    if es != [] {
      WorldRun(w, runId, threadId, es[..|es| - 1]);
    }
  }

  /** The row shows what the update gives. */
  predicate WrittenBy(row: RunRow, u: RunUpdate) {
    row.status == u.status && (u.output.Some? ==> row.output == u.output) && (u.error.Some? ==> row.error == u.error)
  }

  lemma FinalRun(s: Script)
    requires FirstFault(FinalSteps(s)).None?
    ensures RunWritten(Happened(FinalSteps(s))) == Some(EndUpdate(s))
  {
    var final := FinalSteps(s);
    FinalInTwo(ANY_WORLD, "", "", s);
    assert final == [final[0]] + [final[1]];
    RunFirst(final[0], [final[1]]);
  }

  lemma ClosingRun(s: Script)
    requires FirstFault(ClosingSteps(s)).None?
    ensures RunWritten(Happened(ClosingSteps(s))) == Some(EndUpdate(s))
  {
    var first, peek, final := [Step(NoEffect, s.streamEnd)], PeekSteps(s), FinalSteps(s);
    StepsJoin(first, peek + final);
    StepsJoin(peek, final);
    FinalRun(s);
    LaterStepWins(peek, final);
    LaterStepWins(first, peek + final);
  }

  lemma BodyRun(runId: string, s: Script)
    requires FirstFault(BodySteps(runId, s)).None?
    ensures RunWritten(Happened(BodySteps(runId, s))) == Some(EndUpdate(s))
  {
    var events, closing := EventSteps(runId, s.chunks), ClosingSteps(s);
    StepsJoin(OpeningSteps(s), events + closing);
    StepsJoin(events, closing);
    ClosingRun(s);
    LaterStepWins(events, closing);
    LaterStepWins(OpeningSteps(s), events + closing);
  }

  lemma HandlerRun(s: Script, cancelled: bool)
    requires TakesEffect(s.handlerRun)
    ensures RunWritten(Happened(HandlerSteps(s, cancelled))) == Some(BrokenUpdate(s, cancelled))
  {
    var steps := HandlerSteps(s, cancelled);
    assert steps == [steps[0]] + steps[1..];
    RunFirst(steps[0], steps[1..]);
  }

  function EndOf(s: Script, fault: Option<Await>): RunUpdate {
    if fault.None? then EndUpdate(s) else BrokenUpdate(s, fault.value.Breaks? && fault.value.cancelled)
  }

  /** The last update that takes effect decides what the row shows. */
  lemma RunUpdateLeft(w: World, runId: string, threadId: string, s: Script)
    requires runId in w.runs && (RunsToEnd(runId, s) || TakesEffect(s.handlerRun))
    ensures runId in AllApplied(w, runId, threadId, Effects(runId, s)).runs
    ensures WrittenBy(AllApplied(w, runId, threadId, Effects(runId, s)).runs[runId],
                      EndOf(s, FirstFault(BodySteps(runId, s))))
  {
    BodyWrites(runId, s);
    var body, fault := Happened(BodySteps(runId, s)), FirstFault(BodySteps(runId, s));
    WorldRun(w, runId, threadId, Effects(runId, s));
    if fault.None? {
      BodyRun(runId, s);
      assert Effects(runId, s) == body;
    } else {
      HandlerRun(s, fault.value.cancelled);
      LaterRunWins(body, Happened(HandlerSteps(s, fault.value.cancelled)));
    }
  }

  predicate HasValues(c: Chunk) {
    c.Event? && c.values.Some?
  }

  predicate LastValuesAt(chunks: seq<Chunk>, i: nat) {
    i < |chunks| && HasValues(chunks[i]) && forall j :: i < j < |chunks| ==> !HasValues(chunks[j])
  }

  lemma {:induction false} NoValuesLeft(chunks: seq<Chunk>, k: nat, current: string)
    requires k <= |chunks| && forall j :: k <= j < |chunks| ==> !HasValues(chunks[j])
    ensures OutputFrom(chunks, k, current) == current
    decreases |chunks| - k
  {
    if k < |chunks| {
      NoValuesLeft(chunks, k + 1, current);
    }
  }

  lemma {:induction false} OutputFromLast(chunks: seq<Chunk>, k: nat, current: string, i: nat)
    requires k <= i && LastValuesAt(chunks, i)
    ensures OutputFrom(chunks, k, current) == chunks[i].values.value
    decreases i - k
  {
    if k < i {
      OutputFromLast(chunks, k + 1, if HasValues(chunks[k]) then chunks[k].values.value else current, i);
    } else {
      NoValuesLeft(chunks, i + 1, chunks[i].values.value);
    }
  }

  /** The output is the payload of the last event of mode `values`, and an empty object if there is none. */
  lemma FinalOutputIsLastValues(chunks: seq<Chunk>)
    ensures (forall j :: 0 <= j < |chunks| ==> !HasValues(chunks[j])) ==> FinalOutput(chunks) == EMPTY_OUTPUT
    ensures forall i: nat :: LastValuesAt(chunks, i) ==> FinalOutput(chunks) == chunks[i].values.value
  {
    if forall j :: 0 <= j < |chunks| ==> !HasValues(chunks[j]) {
      NoValuesLeft(chunks, 0, EMPTY_OUTPUT);
    }
    forall i: nat | LastValuesAt(chunks, i) ensures FinalOutput(chunks) == chunks[i].values.value {
      OutputFromLast(chunks, 0, EMPTY_OUTPUT, i);
    }
  }

  // ---------------------------------------------------------------------------
  // What the rows show, column by column
  // ---------------------------------------------------------------------------

  /** Some event showed an interrupt, or the graph had a next node when it was looked at. */
  ghost predicate ShowsInterrupt(s: Script) {
    (exists i :: 0 <= i < |s.chunks| && s.chunks[i].Event? && s.chunks[i].interrupt) || s.peek == Saw(true)
  }

  lemma {:induction false} InterruptFromIff(chunks: seq<Chunk>, k: nat)
    requires k <= |chunks|
    ensures InterruptFrom(chunks, k) <==> exists i :: k <= i < |chunks| && chunks[i].Event? && chunks[i].interrupt
    decreases |chunks| - k
  {
    if k < |chunks| {
      InterruptFromIff(chunks, k + 1);
    }
  }

  lemma InterruptsIff(s: Script)
    ensures Interrupts(s) <==> ShowsInterrupt(s)
  {
    InterruptFromIff(s.chunks, 0);
  }

  lemma {:induction false} EventsFineFrom(runId: string, chunks: seq<Chunk>, k: nat, n: nat)
    requires k <= |chunks|
    ensures FirstFault(StepsFrom(runId, chunks, k, n)).None?
       <==> forall i :: k <= i < |chunks| && chunks[i].Event? ==> chunks[i].broker.Fine? && chunks[i].store.Fine?
    decreases |chunks| - k
  {
    if k < |chunks| {
      if chunks[k].Skipped? {
        EventsFineFrom(runId, chunks, k + 1, n);
      } else {
        EventsFineFrom(runId, chunks, k + 1, n + 1);
        StepsJoin(ChunkSteps(runId, chunks[k], n + 1), StepsFrom(runId, chunks, k + 1, n + 1));
        EventInTwo(ANY_WORLD, runId, "", chunks[k], n + 1);
      }
    }
  }

  /** A body runs to its end exactly when none of its awaited calls breaks. */
  lemma RunsToEndIff(runId: string, s: Script)
    ensures RunsToEnd(runId, s)
       <==> && s.running.Fine? && s.setup.Fine?
            && (forall i :: 0 <= i < |s.chunks| && s.chunks[i].Event? ==>
                  s.chunks[i].broker.Fine? && s.chunks[i].store.Fine?)
            && s.streamEnd.Fine?
            && (s.peek.PeekCancelled? ==>
                  exists i :: 0 <= i < |s.chunks| && s.chunks[i].Event? && s.chunks[i].interrupt)
            && s.finalRun.Fine? && s.finalThread.Fine?
  {
    OpeningInTwo(ANY_WORLD, runId, "", s, []);
    assert OpeningSteps(s) + [] == OpeningSteps(s);
    EventsFineFrom(runId, s.chunks, 0, 0);
    InterruptFromIff(s.chunks, 0);
  }

  predicate NoErrors(steps: seq<Step>) {
    forall j :: 0 <= j < |steps| && steps[j].effect.SetRun? ==> steps[j].effect.run.error.None?
  }

  lemma {:induction false} EventsHaveNoErrors(runId: string, chunks: seq<Chunk>, k: nat, n: nat)
    requires k <= |chunks|
    ensures NoErrors(StepsFrom(runId, chunks, k, n))
    decreases |chunks| - k
  {
    if k < |chunks| {
      if chunks[k].Skipped? {
        EventsHaveNoErrors(runId, chunks, k + 1, n);
      } else {
        EventsHaveNoErrors(runId, chunks, k + 1, n + 1);
        assert NoErrors(ChunkSteps(runId, chunks[k], n + 1));
      }
    }
  }

  lemma BodyHasNoErrors(runId: string, s: Script)
    ensures NoErrors(BodySteps(runId, s))
  {
    EventsHaveNoErrors(runId, s.chunks, 0, 0);
    assert NoErrors(OpeningSteps(s)) && NoErrors(PeekSteps(s)) && NoErrors(FinalSteps(s));
    assert NoErrors(ClosingSteps(s));
  }

  lemma {:induction false} ErrorKept(w: World, runId: string, threadId: string, es: seq<Effect>)
    requires runId in w.runs && forall i :: 0 <= i < |es| && es[i].SetRun? ==> es[i].run.error.None?
    ensures var u := AllApplied(w, runId, threadId, es);
            runId in u.runs && u.runs[runId].error == w.runs[runId].error
  {
    if es != [] {
      ErrorKept(w, runId, threadId, es[..|es| - 1]);
    }
  }

  lemma StepsKeepError(w: World, runId: string, threadId: string, steps: seq<Step>)
    requires runId in w.runs && NoErrors(steps)
    ensures var u := After(w, runId, threadId, steps);
            runId in u.runs && u.runs[runId].error == w.runs[runId].error
  {
    var es := Happened(steps);
    forall i | 0 <= i < |es| && es[i].SetRun? ensures es[i].run.error.None? {
      HappenedAmong(steps, i);
    }
    ErrorKept(w, runId, threadId, es);
  }

  /** Only a failure writes an error. */
  lemma ErrorLeft(w: World, runId: string, threadId: string, s: Script)
    requires runId in w.runs
    ensures var u, fault := AllApplied(w, runId, threadId, Effects(runId, s)), FirstFault(BodySteps(runId, s));
            runId in u.runs && (fault.None? || fault.value.cancelled ==> u.runs[runId].error == w.runs[runId].error)
  {
    var fault := FirstFault(BodySteps(runId, s));
    TaskInTwo(w, runId, threadId, s);
    BodyHasNoErrors(runId, s);
    StepsKeepError(w, runId, threadId, BodySteps(runId, s));
    WorldRun(w, runId, threadId, Effects(runId, s));
    if fault.Some? && fault.value.cancelled {
      StepsKeepError(After(w, runId, threadId, BodySteps(runId, s)), runId, threadId, HandlerSteps(s, true));
    }
  }

  /** The run row in the end: after a body that ran to its end, interrupted if an interrupt showed and completed
      otherwise, with the payload of the last `values` event or an empty object; after a handler's write,
      cancelled, or failed with the exception's text, as what broke the body was, and with an empty object.
      Only a failure writes the error. */
  lemma RunStatusLeft(w: World, runId: string, threadId: string, s: Script)
    requires runId in w.runs && (RunsToEnd(runId, s) || s.handlerRun.Fine? || s.handlerRun.applied)
    ensures runId in AllApplied(w, runId, threadId, Effects(runId, s)).runs
    ensures var row, fault := AllApplied(w, runId, threadId, Effects(runId, s)).runs[runId],
                              FirstFault(BodySteps(runId, s));
            if RunsToEnd(runId, s) then
              && row.status == (if ShowsInterrupt(s) then InterruptedRun else Completed)
              && row.output.Some? && row.error == w.runs[runId].error
              && ((forall j :: 0 <= j < |s.chunks| ==> !HasValues(s.chunks[j])) ==> row.output.value == "{}")
              && forall i: nat :: LastValuesAt(s.chunks, i) ==> row.output.value == s.chunks[i].values.value
            else
              && fault.Some? && row.output == Some("{}")
              && (fault.value.cancelled ==> row.status == CancelledRun && row.error == w.runs[runId].error)
              && (!fault.value.cancelled ==> row.status == FailedRun && row.error == Some(s.error))
  {
    RunUpdateLeft(w, runId, threadId, s);
    BodyWrites(runId, s);
    InterruptsIff(s);
    ErrorLeft(w, runId, threadId, s);
    FinalOutputIsLastValues(s.chunks);
  }

  /** The thread in the end: interrupted if an interrupt showed and idle otherwise, after a body that ran to its
      end; idle after a handler's write; or as the body's last write left it, or as it was. */
  lemma ThreadStatusLeft(w: World, runId: string, threadId: string, s: Script)
    requires threadId in w.threads
    ensures threadId in AllApplied(w, runId, threadId, Effects(runId, s)).threads
    ensures var now := AllApplied(w, runId, threadId, Effects(runId, s)).threads[threadId];
            var shown := if ShowsInterrupt(s) then Interrupted else Idle;
            now == if RunsToEnd(runId, s) then shown
                   else if s.handlerRun.Fine? && (s.handlerThread.Fine? || s.handlerThread.applied) then Idle
                   else if ReachesEnd(runId, s) && (s.finalThread.Fine? || s.finalThread.applied) then shown
                   else w.threads[threadId]
  {
    StatusLeft(w, runId, threadId, s);
    InterruptsIff(s);
  }

  /** A body that runs to its end leaves run and thread in agreement. */
  lemma RunAgreesWithThread(w: World, runId: string, threadId: string, s: Script)
    requires runId in w.runs && threadId in w.threads && RunsToEnd(runId, s)
    ensures var u := AllApplied(w, runId, threadId, Effects(runId, s));
            && runId in u.runs && threadId in u.threads
            && (u.runs[runId].status == InterruptedRun <==> u.threads[threadId] == Interrupted)
            && (u.runs[runId].status == Completed <==> u.threads[threadId] == Idle)
  {
    RunStatusLeft(w, runId, threadId, s);
    ThreadStatusLeft(w, runId, threadId, s);
  }

  /** An execution that is under way when its graph cannot be set up, and whose handler cannot write. */
  const NO_GRAPH :=
    Script(Fine, Breaks(false, false), [], Fine, Saw(false), Fine, Fine, Breaks(false, false), Fine, Fine, Fine, "")

  /** It leaves its run running. */
  lemma UnhandledStaysRunning(w: World, runId: string, threadId: string)
    requires runId in w.runs
    ensures var u := AllApplied(w, runId, threadId, Effects(runId, NO_GRAPH));
            runId in u.runs && u.runs[runId] == w.runs[runId].(status := Running)
  {
    var body := After(w, runId, threadId, BodySteps(runId, NO_GRAPH));
    TaskInTwo(w, runId, threadId, NO_GRAPH);
    OpeningInTwo(w, runId, threadId, NO_GRAPH, EventSteps(runId, []) + ClosingSteps(NO_GRAPH));
    HandlerInTwo(body, runId, threadId, NO_GRAPH, false);
  }
}
