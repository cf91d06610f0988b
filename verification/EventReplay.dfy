/** The events of one run between its task, the broker's queue, the event store and a client that connects
    again: what a client is sent, which events twice and which not at all. Events are their sequence numbers. */
module EventReplay {
  import opened Common
  import RunLifecycle

  type Await = RunLifecycle.Await

  predicate TakesEffect(a: Await) {
    RunLifecycle.TakesEffect(a)
  }

  /** An event by what the service does with it: an update that nobody asked for and that shows no interrupt
      goes nowhere; others go to the queue, and to the store if their mode is one that is stored. */
  datatype Raw = PlainUpdate | Kept | Unkept | End

  /** The sequence number that a client sends as the last it got, if it sends any and it can be read. */
  datatype LastId = Absent | Unreadable | At(number: int)

  /** Replay sends what is stored beyond this. */
  predicate Replays(last: LastId, n: nat) {
    match last case Absent => true case Unreadable => n > -1 case At(x) => n > x
  }

  /** Where the live part starts. */
  function LiveFrom(last: LastId): int {
    if last.At? then last.number else 0
  }

  /** Of one run: how many events were numbered, the one of them that is still to be stored, those ever put
      into the queue and how many of them have left it, whether the broker is finished, and the events that
      wait to be stored and that are. */
  datatype Feed = Feed(counter: nat, unsaved: Option<Raw>, put: seq<nat>, taken: nat, finished: bool,
                       batch: seq<nat>, stored: seq<nat>)

  const NO_EVENTS := Feed(0, None, [], 0, false, [], [])

  function Queue(f: Feed): seq<nat> {
    if f.taken <= |f.put| then f.put[f.taken..] else []
  }

  function Numbered(f: Feed, raw: Raw): Feed {
    f.(counter := f.counter + 1, unsaved := Some(raw),
       put := if raw.PlainUpdate? || f.finished then f.put else f.put + [f.counter + 1],
       finished := f.finished || raw.End?)
  }

  /** The batch is emptied before the insert is tried. */
  function Flushed(f: Feed, a: Await): Feed {
    f.(batch := [], stored := if TakesEffect(a) then f.stored + f.batch else f.stored)
  }

  function Saved(f: Feed, raw: Raw, a: Await, batchSize: nat): Feed {
    if raw.PlainUpdate? || raw.Unkept? then f.(unsaved := None)
    else
      var g := f.(batch := f.batch + [f.counter], unsaved := None);
      if |g.batch| >= batchSize || raw.End? then Flushed(g, a) else g
  }

  /** The cleanup flushes the batch, and marks the broker finished unless that breaks. */
  function Cleaned(f: Feed, a: Await): Feed {
    var g := if f.batch == [] then f else Flushed(f, a);
    g.(unsaved := None, finished := f.finished || f.batch == [] || a.Fine?)
  }

  /** An end event for live clients alone. */
  function Signalled(f: Feed): Feed {
    Numbered(f, End).(unsaved := None)
  }

  /** A connection: what it has sent from the store, and since then from the queue. */
  datatype Conn = Conn(last: LastId, replayed: bool, replay: seq<nat>, live: seq<nat>, lastSent: int)

  function Connected(last: LastId): Conn {
    Conn(last, false, [], [], LiveFrom(last))
  }

  function Sent(c: Conn): seq<nat> {
    c.replay + c.live
  }

  function Beyond(s: seq<nat>, last: LastId): (r: seq<nat>)
    ensures forall n :: n in r <==> n in s && Replays(last, n)
  {
    if s == [] then []
    else if Replays(last, s[0]) then [s[0]] + Beyond(s[1..], last)
    else Beyond(s[1..], last)
  }

  function Took(c: Conn, n: nat): Conn {
    if n <= c.lastSent then c else c.(live := c.live + [n], lastSent := n)
  }

  // ---------------------------------------------------------------------------
  // The service
  // ---------------------------------------------------------------------------

  /** What the service, the broker and the store hold of one run. */
  class RunStream {
    const batchSize: nat
    var counter: nat
    var queue: seq<nat>
    var finished: bool
    var batch: seq<nat>
    var stored: seq<nat>
    ghost var unsaved: Option<Raw>
    ghost var put: seq<nat>
    ghost var taken: nat

    ghost predicate Valid()
      reads this
    {
      taken <= |put| && queue == put[taken..]
    }

    ghost function Model(): Feed
      reads this
    {
      Feed(counter, unsaved, put, taken, finished, batch, stored)
    }

    constructor (batchSize: nat)
      ensures Valid() && Model() == NO_EVENTS && this.batchSize == batchSize
    {
      this.batchSize := batchSize;
      counter, queue, finished, batch, stored := 0, [], false, [], [];
      unsaved, put, taken := None, [], 0;
    }

    /** An event is numbered and, unless it is filtered out, put into the queue of a broker not yet finished. */
    method PutToBroker(raw: Raw)
      requires Valid()
      modifies this
      ensures Valid() && Model() == Numbered(old(Model()), raw)
      ensures counter == old(counter) + 1
      ensures queue == if raw.PlainUpdate? || old(finished) then old(queue) else old(queue) + [counter]
      ensures finished == (old(finished) || raw.End?)
    {
      counter := counter + 1;
      unsaved := Some(raw);
      if raw.PlainUpdate? {
        return;
      }
      if !finished {
        queue, put := queue + [counter], put + [counter];
      }
      if raw.End? {
        finished := true;
      }
    }

    method FlushStorageBatch(force: bool, a: Await)
      requires Valid()
      modifies this
      ensures Valid()
      ensures Model() == if old(batch) != [] && (force || |old(batch)| >= batchSize) then Flushed(old(Model()), a)
                         else old(Model())
      ensures old(|batch|) >= batchSize || force ==> batch == []
      ensures stored == if batch != [] || (a.Breaks? && !a.applied) then old(stored) else old(stored) + old(batch)
    {
      if batch == [] || (!force && |batch| < batchSize) {
        return;
      }
      var events := batch;
      batch := [];
      if TakesEffect(a) {
        stored := stored + events;
      }
    }

    method StoreEventFromRaw(raw: Raw, a: Await)
      requires Valid()
      modifies this
      ensures Valid() && Model() == Saved(old(Model()), raw, a, batchSize)
      ensures raw.PlainUpdate? || raw.Unkept? ==> batch == old(batch) && stored == old(stored)
      ensures raw.Kept? || raw.End? ==>
                var events := old(batch) + [counter];
                if |events| < batchSize && !raw.End? then batch == events && stored == old(stored)
                else batch == [] && stored == if a.Fine? || a.applied then old(stored) + events else old(stored)
    {
      unsaved := None;
      if raw.PlainUpdate? || raw.Unkept? {
        return;
      }
      batch := batch + [counter];
      FlushStorageBatch(raw.End?, a);
    }

    method CleanupRun(a: Await)
      requires Valid()
      modifies this
      ensures Valid() && Model() == Cleaned(old(Model()), a)
      ensures batch == [] && (finished <==> old(finished) || old(batch) == [] || a.Fine?)
      ensures stored == if a.Fine? || a.applied then old(stored) + old(batch) else old(stored)
    {
      unsaved := None;
      var due := batch != [];
      FlushStorageBatch(true, a);
      if due && a.Breaks? {
        return;
      }
      finished := true;
    }

    method SignalEnd()
      requires Valid()
      modifies this
      ensures Valid() && Model() == Signalled(old(Model()))
      ensures finished && queue == if old(finished) then old(queue) else old(queue) + [old(counter) + 1]
    {
      PutToBroker(End);
      unsaved := None;
    }

    method TakeFromQueue() returns (n: nat)
      requires Valid() && queue != []
      modifies this
      ensures Valid() && old(taken) < |old(put)| && n == old(put)[old(taken)]
      ensures Model() == old(Model()).(taken := old(taken) + 1)
      ensures n == old(queue)[0] && queue == old(queue)[1..]
    {
      n := queue[0];
      queue, taken := queue[1..], taken + 1;
    }
  }

  /** A client's connection to the stream of a run. */
  class Connection {
    const last: LastId
    var replayed: bool
    var replay: seq<nat>
    var live: seq<nat>
    var lastSent: int

    function Model(): Conn
      reads this
    {
      Conn(last, replayed, replay, live, lastSent)
    }

    constructor (last: LastId)
      ensures Model() == Connected(last)
    {
      this.last := last;
      replayed, replay, live, lastSent := false, [], [], LiveFrom(last);
    }

    /** Sends what is stored beyond the last event the client got; `lastSent` stays where it is. */
    method ReplayStoredEvents(stream: RunStream)
      requires !replayed
      modifies this
      ensures Model() == old(Model()).(replayed := true, replay := old(replay) + Beyond(stream.stored, last))
    {
      var i := 0;
      ghost var before := replay;
      while i < |stream.stored|
        invariant 0 <= i <= |stream.stored|
        invariant replay + Beyond(stream.stored[i..], last) == before + Beyond(stream.stored, last)
        invariant replayed == old(replayed) && live == old(live) && lastSent == old(lastSent)
      {
        var n := stream.stored[i];
        assert stream.stored[i..][1..] == stream.stored[i + 1..];
        if Replays(last, n) {
          assert replay + ([n] + Beyond(stream.stored[i + 1..], last))
              == (replay + [n]) + Beyond(stream.stored[i + 1..], last);
          replay := replay + [n];
        }
        i := i + 1;
      }
      assert replay + [] == replay;
      replayed := true;
    }

    /** One round of the live loop: the oldest event of the queue is sent unless its number is too low. */
    method TakeLive(stream: RunStream)
      requires stream.Valid() && stream.queue != []
      modifies this, stream
      ensures stream.Valid() && old(stream.taken) < |old(stream.put)|
      ensures stream.Model() == old(stream.Model()).(taken := old(stream.taken) + 1)
      ensures Model() == Took(old(Model()), old(stream.put)[old(stream.taken)])
      ensures old(stream.queue)[0] == old(stream.put)[old(stream.taken)] && stream.queue == old(stream.queue)[1..]
    {
      var n := stream.TakeFromQueue();
      if n <= lastSent {
        return;
      }
      live, lastSent := live + [n], n;
    }
  }

  // ---------------------------------------------------------------------------
  // Histories
  // ---------------------------------------------------------------------------

  /** What the task does, what happens to the store and the queue from outside (the store forgets its oldest
      events; another connection, or back-pressure, takes the oldest of the queue), and what one client does. */
  datatype Action =
    | Put(raw: Raw)
    | Save(flush: Await)
    | Clean(flush: Await)
    | Signal
    | Forget(k: nat)
    | TakenElsewhere
    | Connect(last: LastId)
    | Replay
    | Take
    | Disconnect

  datatype System = System(feed: Feed, conn: Option<Conn>)

  const START := System(NO_EVENTS, None)

  predicate Possible(s: System, a: Action) {
    match a
    case Put(_) => s.feed.unsaved.None?
    case Save(_) => s.feed.unsaved.Some?
    case Forget(k) => k <= |s.feed.stored|
    case TakenElsewhere => s.feed.taken < |s.feed.put|
    case Connect(_) => s.conn.None?
    case Replay => s.conn.Some? && !s.conn.value.replayed
    case Take => s.conn.Some? && s.conn.value.replayed && s.feed.taken < |s.feed.put|
    case _ => true
  }

  /** An action that is not possible changes nothing. */
  function Step(s: System, a: Action, batchSize: nat): System {
    var f := s.feed;
    if !Possible(s, a) then s
    else
      match a
      case Put(raw) => s.(feed := Numbered(f, raw))
      case Save(flush) => s.(feed := Saved(f, f.unsaved.value, flush, batchSize))
      case Clean(flush) => s.(feed := Cleaned(f, flush))
      case Signal => s.(feed := Signalled(f))
      case Forget(k) => s.(feed := f.(stored := f.stored[k..]))
      case TakenElsewhere => s.(feed := f.(taken := f.taken + 1))
      case Connect(last) => s.(conn := Some(Connected(last)))
      case Replay =>
        var c := s.conn.value;
        s.(conn := Some(c.(replayed := true, replay := c.replay + Beyond(f.stored, c.last))))
      case Take => System(f.(taken := f.taken + 1), Some(Took(s.conn.value, f.put[f.taken])))
      case Disconnect => s.(conn := None)
  }

  function After(s: System, h: seq<Action>, batchSize: nat): System {
    if h == [] then s else Step(After(s, h[..|h| - 1], batchSize), h[|h| - 1], batchSize)
  }

  // ---------------------------------------------------------------------------
  // The invariant of the feed
  // ---------------------------------------------------------------------------

  ghost predicate Increasing(s: seq<nat>) {
    forall i, j :: 0 <= i < j < |s| ==> s[i] < s[j]
  }

  ghost predicate Among(s: seq<nat>, low: nat, high: int) {
    forall n :: n in s ==> low <= n <= high
  }

  /** Queue and store hold events in their order, each at most once. */
  ghost predicate Inv(f: Feed) {
    && (f.unsaved.Some? ==> f.counter >= 1)
    && f.taken <= |f.put| && Increasing(f.put) && Among(f.put, 1, f.counter)
    && Increasing(f.stored + f.batch)
    && Among(f.stored + f.batch, 1, if f.unsaved.Some? then f.counter - 1 else f.counter)
  }

  lemma IncreasingAppend(s: seq<nat>, n: nat)
    requires Increasing(s) && forall x :: x in s ==> x < n
    ensures Increasing(s + [n])
  {
    forall i | 0 <= i < |s| ensures s[i] < n {
      assert s[i] in s;
    }
  }

  lemma IncreasingParts(a: seq<nat>, b: seq<nat>)
    requires Increasing(a + b)
    ensures Increasing(a) && Increasing(b)
    ensures forall x, y :: x in a && y in b ==> x < y
  {
    var s := a + b;
    assert forall i :: 0 <= i < |a| ==> a[i] == s[i];
    assert forall i :: 0 <= i < |b| ==> b[i] == s[|a| + i];
  }

  lemma PutKeepsInv(f: Feed, raw: Raw)
    requires Inv(f)
    ensures Inv(Numbered(f, raw))
  {
    IncreasingAppend(f.put, f.counter + 1);
  }

  lemma FlushKeepsInv(f: Feed, a: Await)
    requires Inv(f)
    ensures Inv(Flushed(f, a))
  {
    IncreasingParts(f.stored, f.batch);
    var g := Flushed(f, a);
    assert g.stored + g.batch == g.stored;
    assert forall n :: n in g.stored ==> n in f.stored + f.batch;
  }

  lemma SaveKeepsInv(f: Feed, a: Await, batchSize: nat)
    requires Inv(f) && f.unsaved.Some?
    ensures Inv(Saved(f, f.unsaved.value, a, batchSize))
  {
    var g := f.(batch := f.batch + [f.counter], unsaved := None);
    IncreasingAppend(f.stored + f.batch, f.counter);
    assert g.stored + g.batch == (f.stored + f.batch) + [f.counter];
    assert forall n :: n in g.stored + g.batch ==> n in f.stored + f.batch || n == f.counter;
    FlushKeepsInv(g, a);
  }

  lemma ForgetKeepsInv(f: Feed, k: nat)
    requires Inv(f) && k <= |f.stored|
    ensures Inv(f.(stored := f.stored[k..]))
  {
    assert f.stored + f.batch == f.stored[..k] + (f.stored[k..] + f.batch);
    IncreasingParts(f.stored[..k], f.stored[k..] + f.batch);
    assert forall n :: n in f.stored[k..] + f.batch ==> n in f.stored + f.batch;
  }

  lemma StepKeepsInv(s: System, a: Action, batchSize: nat)
    requires Inv(s.feed)
    ensures Inv(Step(s, a, batchSize).feed)
  {
    if Possible(s, a) {
      match a {
        case Put(raw) => PutKeepsInv(s.feed, raw);
        case Save(flush) => SaveKeepsInv(s.feed, flush, batchSize);
        case Clean(flush) => FlushKeepsInv(s.feed, flush);
        case Signal => PutKeepsInv(s.feed, End);
        case Forget(k) => ForgetKeepsInv(s.feed, k);
        case _ =>
      }
    }
  }

  lemma {:induction false} ReachableInv(s: System, h: seq<Action>, batchSize: nat)
    requires Inv(s.feed)
    ensures Inv(After(s, h, batchSize).feed)
  {
    if h != [] {
      ReachableInv(s, h[..|h| - 1], batchSize);
      StepKeepsInv(After(s, h[..|h| - 1], batchSize), h[|h| - 1], batchSize);
    }
  }

  /** Once its broker is finished, by an end event or a cleanup, a run puts nothing more into the queue. */
  lemma {:induction false} NothingAfterEnd(s: System, h: seq<Action>, batchSize: nat)
    requires s.feed.finished
    ensures After(s, h, batchSize).feed.finished && After(s, h, batchSize).feed.put == s.feed.put
  {
    if h != [] {
      NothingAfterEnd(s, h[..|h| - 1], batchSize);
    }
  }

  // ---------------------------------------------------------------------------
  // What a connection is sent
  // ---------------------------------------------------------------------------

  function TimesSent(s: System, n: nat): nat {
    if s.conn.Some? then multiset(Sent(s.conn.value))[n] else 0
  }

  /** The part of the queue that was taken since it had been taken up to `from`. */
  function TakenSince(f: Feed, from: nat): seq<nat> {
    if from <= f.taken <= |f.put| then f.put[from..f.taken] else []
  }

  ghost predicate FeedFollows(f: Feed, g: Feed) {
    && Inv(g) && f.put <= g.put && f.taken <= g.taken && f.counter <= g.counter
    && forall i :: |f.put| <= i < |g.put| ==> g.put[i] > f.counter
  }

  /** Since a replay that found the feed `f`: every event sent live was taken from the queue, and, if nobody else
      takes any, every event taken that is not too low was sent. */
  ghost predicate ConnFollows(f: Feed, last: LastId, c: Conn, g: Feed, alone: bool) {
    && c.replayed && c.last == last && c.replay == Beyond(f.stored, last)
    && Increasing(c.live) && (forall n :: n in c.live ==> LiveFrom(last) < n <= c.lastSent)
    && (c.lastSent == LiveFrom(last) || (0 <= c.lastSent && c.lastSent in c.live))
    && (forall n :: n in c.live ==> n in TakenSince(g, f.taken))
    && (alone ==> forall n :: n in TakenSince(g, f.taken) && n > LiveFrom(last) ==> n in c.live)
  }

  ghost predicate Follows(f: Feed, last: LastId, s: System, alone: bool) {
    FeedFollows(f, s.feed) && s.conn.Some? && ConnFollows(f, last, s.conn.value, s.feed, alone)
  }

  /** What others than the consumers do to the feed. */
  lemma ProducerStep(s: System, a: Action, batchSize: nat)
    requires Inv(s.feed) && !a.Take? && !a.TakenElsewhere?
    ensures var f, g := s.feed, Step(s, a, batchSize).feed;
            && g.taken == f.taken && f.counter <= g.counter
            && (g.put == f.put || (g.put == f.put + [g.counter] && g.counter > f.counter))
  {
  }

  lemma FeedStep(f: Feed, s: System, a: Action, batchSize: nat)
    requires FeedFollows(f, s.feed)
    ensures FeedFollows(f, Step(s, a, batchSize).feed)
  {
    StepKeepsInv(s, a, batchSize);
    if !a.Take? && !a.TakenElsewhere? {
      ProducerStep(s, a, batchSize);
    }
  }

  lemma TakenMore(f: Feed, from: nat)
    requires from <= f.taken < |f.put| && Inv(f)
    ensures TakenSince(f.(taken := f.taken + 1), from) == TakenSince(f, from) + [f.put[f.taken]]
    ensures forall n :: n in TakenSince(f, from) ==> n < f.put[f.taken]
  {
  }

  lemma TakeFollows(f: Feed, last: LastId, c: Conn, g: Feed, alone: bool)
    requires f.taken <= g.taken < |g.put| && Inv(g) && ConnFollows(f, last, c, g, alone)
    ensures ConnFollows(f, last, Took(c, g.put[g.taken]), g.(taken := g.taken + 1), alone)
  {
    TakenMore(g, f.taken);
    var n := g.put[g.taken];
    if n > c.lastSent {
      IncreasingAppend(c.live, n);
    }
  }

  lemma ElsewhereFollows(f: Feed, last: LastId, c: Conn, g: Feed)
    requires f.taken <= g.taken < |g.put| && Inv(g) && ConnFollows(f, last, c, g, false)
    ensures ConnFollows(f, last, c, g.(taken := g.taken + 1), false)
  {
    TakenMore(g, f.taken);
  }

  lemma ProducerFollows(f: Feed, last: LastId, c: Conn, g: Feed, h: Feed, alone: bool)
    requires g.taken <= |g.put| && h.taken == g.taken && g.put <= h.put && ConnFollows(f, last, c, g, alone)
    ensures ConnFollows(f, last, c, h, alone)
  {
    assert TakenSince(h, f.taken) == TakenSince(g, f.taken);
  }

  /** They leave a connection that has replayed as it is. */
  lemma ConnStays(s: System, a: Action, batchSize: nat)
    requires s.conn.Some? && s.conn.value.replayed && !a.Take? && !a.Disconnect?
    ensures Step(s, a, batchSize).conn == s.conn
  {
  }

  lemma OtherStep(f: Feed, last: LastId, s: System, a: Action, alone: bool, batchSize: nat)
    requires Inv(s.feed) && s.conn.Some? && ConnFollows(f, last, s.conn.value, s.feed, alone)
    requires !a.Disconnect? && !a.Take? && !a.TakenElsewhere?
    ensures var u := Step(s, a, batchSize); u.conn.Some? && ConnFollows(f, last, u.conn.value, u.feed, alone)
  {
    ProducerStep(s, a, batchSize);
    ConnStays(s, a, batchSize);
    ProducerFollows(f, last, s.conn.value, s.feed, Step(s, a, batchSize).feed, alone);
  }

  lemma TakeStep(f: Feed, last: LastId, s: System, alone: bool, batchSize: nat)
    requires f.taken <= s.feed.taken && Inv(s.feed)
    requires s.conn.Some? && ConnFollows(f, last, s.conn.value, s.feed, alone)
    ensures var u := Step(s, Take, batchSize); u.conn.Some? && ConnFollows(f, last, u.conn.value, u.feed, alone)
  {
    var g := s.feed;
    if g.taken < |g.put| {
      TakeFollows(f, last, s.conn.value, g, alone);
      assert Step(s, Take, batchSize)
          == System(g.(taken := g.taken + 1), Some(Took(s.conn.value, g.put[g.taken])));
    } else {
      assert Step(s, Take, batchSize) == s;
    }
  }

  lemma ElsewhereStep(f: Feed, last: LastId, s: System, batchSize: nat)
    requires f.taken <= s.feed.taken && Inv(s.feed)
    requires s.conn.Some? && ConnFollows(f, last, s.conn.value, s.feed, false)
    ensures var u := Step(s, TakenElsewhere, batchSize);
            u.conn.Some? && ConnFollows(f, last, u.conn.value, u.feed, false)
  {
    var g := s.feed;
    if g.taken < |g.put| {
      ElsewhereFollows(f, last, s.conn.value, g);
      assert Step(s, TakenElsewhere, batchSize) == System(g.(taken := g.taken + 1), s.conn);
    } else {
      assert Step(s, TakenElsewhere, batchSize) == s;
    }
  }

  lemma FollowsStep(f: Feed, last: LastId, s: System, a: Action, alone: bool, batchSize: nat)
    requires Follows(f, last, s, alone) && !a.Disconnect? && (alone ==> !a.TakenElsewhere?)
    ensures Follows(f, last, Step(s, a, batchSize), alone)
  {
    FeedStep(f, s, a, batchSize);
    if a.Take? {
      TakeStep(f, last, s, alone, batchSize);
    } else if a.TakenElsewhere? {
      ElsewhereStep(f, last, s, batchSize);
    } else {
      OtherStep(f, last, s, a, alone, batchSize);
    }
  }

  /** The connection lasts, and, if it is to be alone, nobody else takes from the queue. */
  ghost predicate Lasts(h: seq<Action>, alone: bool) {
    forall i :: 0 <= i < |h| ==> !h[i].Disconnect? && (alone ==> !h[i].TakenElsewhere?)
  }

  lemma {:induction false} FollowsRun(f: Feed, last: LastId, s: System, h: seq<Action>, alone: bool, batchSize: nat)
    requires Follows(f, last, s, alone) && Lasts(h, alone)
    ensures Follows(f, last, After(s, h, batchSize), alone)
  {
    if h != [] {
      FollowsRun(f, last, s, h[..|h| - 1], alone, batchSize);
      FollowsStep(f, last, After(s, h[..|h| - 1], batchSize), h[|h| - 1], alone, batchSize);
    }
  }

  /** A replay starts it. */
  lemma ReplayFollows(s: System, last: LastId, alone: bool, batchSize: nat)
    requires Inv(s.feed) && s.conn == Some(Connected(last))
    ensures Follows(s.feed, last, Step(s, Replay, batchSize), alone)
  {
    var c := Step(s, Replay, batchSize).conn.value;
    assert c.replay == [] + Beyond(s.feed.stored, last);
  }

  lemma {:induction false} BeyondIncreasing(s: seq<nat>, last: LastId)
    requires Increasing(s)
    ensures Increasing(Beyond(s, last))
  {
    if s != [] {
      assert forall i :: 0 <= i < |s[1..]| ==> s[1..][i] == s[i + 1];
      BeyondIncreasing(s[1..], last);
      assert forall n :: n in s[1..] ==> s[0] < n;
      ConsIncreasing(s[0], Beyond(s[1..], last));
    }
  }

  lemma ConsIncreasing(n: nat, s: seq<nat>)
    requires Increasing(s) && forall x :: x in s ==> n < x
    ensures Increasing([n] + s)
  {
    forall i | 0 <= i < |s| ensures n < s[i] {
      assert s[i] in s;
    }
  }

  lemma {:induction false} CountOnce(s: seq<nat>, n: nat)
    requires Increasing(s)
    ensures multiset(s)[n] == if n in s then 1 else 0
  {
    if s != [] {
      var init, last := s[..|s| - 1], s[|s| - 1];
      assert s == init + [last];
      CountOnce(init, n);
    }
  }

  /** Two increasing parts: each event at most twice, and twice if in both. */
  lemma CountSent(f: Feed, last: LastId, s: System, alone: bool, n: nat)
    requires Inv(f) && Follows(f, last, s, alone)
    ensures TimesSent(s, n) == (if n in f.stored && Replays(last, n) then 1 else 0)
                               + (if n in s.conn.value.live then 1 else 0)
  {
    var c := s.conn.value;
    IncreasingParts(f.stored, f.batch);
    BeyondIncreasing(f.stored, last);
    CountOnce(c.replay, n);
    CountOnce(c.live, n);
    assert multiset(c.replay + c.live) == multiset(c.replay) + multiset(c.live);
  }

  /** A connection of a reachable state has just been made, and then lasts. */
  ghost predicate Streams(h: seq<Action>, more: seq<Action>, last: LastId, alone: bool, batchSize: nat) {
    After(START, h, batchSize).conn == Some(Connected(last)) && Lasts(more, alone)
  }

  /** The state when its replay begins. */
  function AtReplay(h: seq<Action>, batchSize: nat): System {
    After(START, h, batchSize)
  }

  /** The state in the end. */
  function Finally(h: seq<Action>, more: seq<Action>, batchSize: nat): System {
    After(Step(AtReplay(h, batchSize), Replay, batchSize), more, batchSize)
  }

  lemma StreamFollows(h: seq<Action>, more: seq<Action>, last: LastId, alone: bool, batchSize: nat)
    requires Streams(h, more, last, alone, batchSize)
    ensures Inv(AtReplay(h, batchSize).feed)
    ensures Follows(AtReplay(h, batchSize).feed, last, Finally(h, more, batchSize), alone)
  {
    var s := AtReplay(h, batchSize);
    ReachableInv(START, h, batchSize);
    ReplayFollows(s, last, alone, batchSize);
    FollowsRun(s.feed, last, Step(s, Replay, batchSize), more, alone, batchSize);
  }

  /** Whatever others do, nothing is sent more than twice, and nothing twice but what the store and the queue
      both hold when the replay begins. */
  lemma SentAtMostTwice(h: seq<Action>, more: seq<Action>, last: LastId, n: nat, batchSize: nat)
    requires Streams(h, more, last, false, batchSize)
    ensures TimesSent(Finally(h, more, batchSize), n) <= 2
    ensures TimesSent(Finally(h, more, batchSize), n) == 2 ==>
              var f := AtReplay(h, batchSize).feed; n in f.stored && n in Queue(f) && !(last.At? && n <= last.number)
  {
    var f, u := AtReplay(h, batchSize).feed, Finally(h, more, batchSize);
    StreamFollows(h, more, last, false, batchSize);
    CountSent(f, last, u, false, n);
    if n in u.conn.value.live && n in f.stored {
      OldIsQueued(f, u.feed, n);
    }
  }

  /** What is taken later but was numbered before the replay, was in the queue then. */
  lemma OldIsQueued(f: Feed, g: Feed, n: nat)
    requires Inv(f) && FeedFollows(f, g) && n in TakenSince(g, f.taken) && n in f.stored
    ensures n in Queue(f)
  {
    assert n in f.stored + f.batch;
    var i :| f.taken <= i < g.taken && g.put[i] == n;
    assert i < |f.put| && Queue(f)[i - f.taken] == n;
  }

  /** With nobody else taking events, a client that has taken all there are was sent every event beyond its
      last one as often as this: once if it was stored when the replay began, and once if it was put into the
      queue and had not left it by then. */
  lemma SentExactly(h: seq<Action>, more: seq<Action>, last: LastId, n: nat, batchSize: nat)
    requires Streams(h, more, last, true, batchSize)
    requires Queue(Finally(h, more, batchSize).feed) == [] && n >= 1
    ensures var f, u := AtReplay(h, batchSize).feed, Finally(h, more, batchSize);
            TimesSent(u, n) == if last.At? && n <= last.number then 0
                               else (if n in f.stored then 1 else 0)
                                    + (if n in u.feed.put && n !in TakenSince(f, 0) then 1 else 0)
  {
    var f, u := AtReplay(h, batchSize).feed, Finally(h, more, batchSize);
    StreamFollows(h, more, last, true, batchSize);
    CountSent(f, last, u, true, n);
    TakenInTwo(f, u.feed, n);
  }

  lemma TakenInTwo(f: Feed, g: Feed, n: nat)
    requires Inv(f) && FeedFollows(f, g) && Queue(g) == []
    ensures n in TakenSince(g, f.taken) <==> n in g.put && n !in TakenSince(f, 0)
  {
    assert g.put == g.put[..f.taken] + g.put[f.taken..];
    assert g.put[..f.taken] == f.put[..f.taken] == TakenSince(f, 0);
    assert g.put[f.taken..] == TakenSince(g, f.taken);
    IncreasingParts(g.put[..f.taken], g.put[f.taken..]);
  }

  /** So an event is sent twice exactly when, as the replay begins, it is stored, beyond the client's last one
      and still in the queue. */
  lemma SentTwiceIff(h: seq<Action>, more: seq<Action>, last: LastId, n: nat, batchSize: nat)
    requires Streams(h, more, last, true, batchSize) && Queue(Finally(h, more, batchSize).feed) == []
    ensures TimesSent(Finally(h, more, batchSize), n) == 2
       <==> var f := AtReplay(h, batchSize).feed; n in f.stored && n in Queue(f) && !(last.At? && n <= last.number)
  {
    var f, u := AtReplay(h, batchSize).feed, Finally(h, more, batchSize);
    StreamFollows(h, more, last, true, batchSize);
    CountSent(f, last, u, true, n);
    TakenInTwo(f, u.feed, n);
    QueueAndTaken(f, n);
    if n in f.stored {
      assert n in f.stored + f.batch;
      if n in TakenSince(u.feed, f.taken) {
        OldIsQueued(f, u.feed, n);
      }
    }
  }

  lemma QueueAndTaken(f: Feed, n: nat)
    requires Inv(f)
    ensures n in f.put <==> n in Queue(f) || n in TakenSince(f, 0)
    ensures !(n in Queue(f) && n in TakenSince(f, 0))
  {
    assert f.put == f.put[..f.taken] + f.put[f.taken..];
    assert TakenSince(f, 0) == f.put[..f.taken];
    IncreasingParts(f.put[..f.taken], f.put[f.taken..]);
  }

  /** And an event that was put into the queue before the replay is never sent exactly when it is not beyond
      the client's last one, or had left the queue and was not stored. */
  lemma NeverSentIff(h: seq<Action>, more: seq<Action>, last: LastId, n: nat, batchSize: nat)
    requires Streams(h, more, last, true, batchSize) && Queue(Finally(h, more, batchSize).feed) == []
    requires n in AtReplay(h, batchSize).feed.put
    ensures TimesSent(Finally(h, more, batchSize), n) == 0
       <==> var f := AtReplay(h, batchSize).feed;
            (last.At? && n <= last.number) || (n !in f.stored && n !in Queue(f))
  {
    var f, u := AtReplay(h, batchSize).feed, Finally(h, more, batchSize);
    StreamFollows(h, more, last, true, batchSize);
    SentExactly(h, more, last, n, batchSize);
    QueueAndTaken(f, n);
  }

  // ---------------------------------------------------------------------------
  // A stream that nobody disturbs
  // ---------------------------------------------------------------------------

  function Above(s: seq<nat>, x: int): seq<nat> {
    if s == [] then [] else (if s[0] > x then [s[0]] else []) + Above(s[1..], x)
  }

  lemma {:induction false} AllAbove(s: seq<nat>, x: int)
    requires forall n :: n in s ==> n > x
    ensures Above(s, x) == s
  {
    if s != [] {
      assert s[0] in s && forall n :: n in s[1..] ==> n in s;
      AllAbove(s[1..], x);
    }
  }

  lemma AboveNext(s: seq<nat>, x: int)
    requires s != [] && Increasing(s)
    ensures Increasing(s[1..])
    ensures Above(s, x) == if s[0] > x then [s[0]] + Above(s[1..], s[0]) else Above(s[1..], x)
  {
    assert s == [s[0]] + s[1..];
    IncreasingParts([s[0]], s[1..]);
    assert s[0] in [s[0]];
    if s[0] > x {
      AllAbove(s[1..], x);
      AllAbove(s[1..], s[0]);
    }
  }

  lemma LiveNext(live: seq<nat>, queue: seq<nat>, c: Conn)
    requires queue != [] && Increasing(queue) && live == c.live
    ensures Increasing(queue[1..])
    ensures var d := Took(c, queue[0]); d.live + Above(queue[1..], d.lastSent) == live + Above(queue, c.lastSent)
  {
    var rest := Above(queue[1..], queue[0]);
    AboveNext(queue, c.lastSent);
    assert live + ([queue[0]] + rest) == (live + [queue[0]]) + rest;
  }

  /** The live loop: what is in the queue and not too low is sent. */
  method StreamLiveEvents(c: Connection, stream: RunStream)
    requires stream.Valid() && Increasing(stream.queue)
    modifies c, stream
    ensures stream.Valid() && stream.queue == [] && stream.stored == old(stream.stored)
    ensures c.replay == old(c.replay) && c.live == old(c.live) + Above(old(stream.queue), old(c.lastSent))
  {
    ghost var sent := c.live + Above(stream.queue, c.lastSent);
    while stream.queue != []
      invariant stream.Valid() && Increasing(stream.queue) && stream.stored == old(stream.stored)
      invariant c.replay == old(c.replay) && c.live + Above(stream.queue, c.lastSent) == sent
      decreases |stream.queue|
    {
      LiveNext(c.live, stream.queue, c.Model());
      c.TakeLive(stream);
    }
    assert c.live + [] == c.live;
  }

  /** A whole stream while nothing else happens: the metadata event on a first connection, what is stored, and,
      unless the run had ended when the client asked and its broker is finished, what is in the queue. */
  method StreamRunExecution(c: Connection, stream: RunStream, runEnded: bool) returns (metadata: bool)
    requires stream.Valid() && Inv(stream.Model()) && c.Model() == Connected(c.last)
    modifies c, stream
    ensures stream.Valid() && metadata == c.last.Absent?
    ensures var live := !(runEnded && old(stream.finished));
            && Sent(c.Model()) == Beyond(old(stream.stored), c.last)
                                  + (if live then Above(old(stream.queue), LiveFrom(c.last)) else [])
            && stream.queue == if live then [] else old(stream.queue)
  {
    metadata := c.last.Absent?;
    assert stream.put == stream.put[..stream.taken] + stream.queue;
    IncreasingParts(stream.put[..stream.taken], stream.queue);
    c.ReplayStoredEvents(stream);
    assert c.replay == Beyond(stream.stored, c.last);
    if runEnded && stream.finished {
      return;
    }
    StreamLiveEvents(c, stream);
  }

  // ---------------------------------------------------------------------------
  // Broker and store keep the same events
  // ---------------------------------------------------------------------------

  /** Events of the modes that are stored, which the store takes. */
  ghost predicate Ordinary(h: seq<Action>) {
    forall i :: 0 <= i < |h| ==>
      && (h[i].Put? ==> h[i].raw.PlainUpdate? || h[i].raw.Kept?) && (h[i].Save? ==> h[i].flush.Fine?)
      && !h[i].Clean? && !h[i].Signal? && !h[i].Forget?
  }

  /** What is put into the queue but not yet handed to the store. */
  function Unsaved(f: Feed): seq<nat> {
    if f.unsaved == Some(Kept) then [f.counter] else []
  }

  ghost predicate SameEvents(f: Feed) {
    f.put == f.stored + f.batch + Unsaved(f) && !f.finished && (f.unsaved.Some? ==> !f.unsaved.value.End?)
    && (f.unsaved.Some? ==> !f.unsaved.value.Unkept?)
  }

  lemma SameStep(s: System, a: Action, batchSize: nat)
    requires SameEvents(s.feed) && Ordinary([a])
    ensures SameEvents(Step(s, a, batchSize).feed)
  {
    var f := s.feed;
    assert [a][0] == a;
    assert (f.stored + f.batch) + [f.counter] == f.stored + (f.batch + [f.counter]);
    assert forall t: seq<nat> :: t + [] == t;
  }

  lemma {:induction false} SameRun(h: seq<Action>, batchSize: nat)
    requires Ordinary(h)
    ensures SameEvents(After(START, h, batchSize).feed)
  {
    if h != [] {
      SameRun(h[..|h| - 1], batchSize);
      SameStep(After(START, h[..|h| - 1], batchSize), h[|h| - 1], batchSize);
    }
  }

  /** While the task goes well, store and batch hold exactly the events that were put into the queue, with
      increasing numbers, and after the cleanup the store holds all of them. */
  lemma StoreHoldsWhatWasPut(h: seq<Action>, batchSize: nat)
    requires Ordinary(h)
    ensures var f := After(START, h, batchSize).feed;
            && Increasing(f.put) && f.put == f.stored + f.batch + Unsaved(f)
            && (f.unsaved.None? ==> Cleaned(f, RunLifecycle.Fine).stored == f.put)
  {
    SameRun(h, batchSize);
    ReachableInv(START, h, batchSize);
    var f := After(START, h, batchSize).feed;
    assert f.stored + f.batch + [] == f.stored + f.batch;
    assert f.batch == [] ==> f.stored + f.batch == f.stored;
  }

  // ---------------------------------------------------------------------------
  // Concrete streams
  // ---------------------------------------------------------------------------

  /** The events 1 to `n`. */
  function UpTo(n: nat): seq<nat> {
    seq(n, i requires 0 <= i < n => i + 1)
  }

  lemma UpToNext(n: nat)
    ensures UpTo(n + 1) == UpTo(n) + [n + 1]
  {
  }

  lemma Then(s: System, h: seq<Action>, a: Action, batchSize: nat)
    ensures After(s, h + [a], batchSize) == Step(After(s, h, batchSize), a, batchSize)
  {
    assert (h + [a])[..|h|] == h;
  }

  lemma ThenTwo(s: System, h: seq<Action>, a: Action, b: Action, batchSize: nat)
    ensures After(s, h + [a] + [b], batchSize) == Step(Step(After(s, h, batchSize), a, batchSize), b, batchSize)
  {
    Then(s, h, a, batchSize);
    Then(s, h + [a], b, batchSize);
  }

  /** A task that produces `n` events to be stored. */
  function Produce(n: nat): seq<Action> {
    if n == 0 then [] else Produce(n - 1) + [Put(Kept)] + [Save(RunLifecycle.Fine)]
  }

  /** The state after them, as long as they fit into one batch. */
  function Producing(n: nat, batchSize: nat): System {
    System(Feed(n, None, UpTo(n), 0, false, if n < batchSize then UpTo(n) else [],
                if n < batchSize then [] else UpTo(n)), None)
  }

  lemma NothingProduced(batchSize: nat)
    requires batchSize >= 1
    ensures Producing(0, batchSize) == START
  {
    assert UpTo(0) == [];
  }

  lemma PutNext(n: nat, batchSize: nat)
    requires 0 < n <= batchSize
    ensures Step(Producing(n - 1, batchSize), Put(Kept), batchSize)
         == System(Feed(n, Some(Kept), UpTo(n), 0, false, UpTo(n - 1), []), None)
  {
    UpToNext(n - 1);
  }

  lemma SaveNext(n: nat, batchSize: nat)
    requires 0 < n <= batchSize
    ensures var s := System(Feed(n, Some(Kept), UpTo(n), 0, false, UpTo(n - 1), []), None);
            Step(s, Save(RunLifecycle.Fine), batchSize) == Producing(n, batchSize)
  {
    var f := Feed(n, Some(Kept), UpTo(n), 0, false, UpTo(n - 1), []);
    UpToNext(n - 1);
    assert f.batch + [f.counter] == UpTo(n) && |UpTo(n)| == n;
    assert f.stored + UpTo(n) == UpTo(n);
    assert Saved(f, Kept, RunLifecycle.Fine, batchSize) == Producing(n, batchSize).feed;
  }

  lemma ProduceMore(n: nat, batchSize: nat, s: System)
    requires n > 0 && After(START, Produce(n - 1), batchSize) == s
    ensures After(START, Produce(n), batchSize)
         == Step(Step(s, Put(Kept), batchSize), Save(RunLifecycle.Fine), batchSize)
  {
    ThenTwo(START, Produce(n - 1), Put(Kept), Save(RunLifecycle.Fine), batchSize);
  }

  lemma {:induction false} Produced(n: nat, batchSize: nat, s: System)
    requires n <= batchSize && batchSize >= 1 && s == Producing(n, batchSize)
    ensures After(START, Produce(n), batchSize) == s
  {
    if n == 0 {
      NothingProduced(batchSize);
    } else {
      var before := Producing(n - 1, batchSize);
      Produced(n - 1, batchSize, before);
      ProduceMore(n, batchSize, before);
      PutNext(n, batchSize);
      SaveNext(n, batchSize);
    }
  }

  function Takes(n: nat): seq<Action> {
    if n == 0 then [] else Takes(n - 1) + [Take]
  }

  lemma {:induction false} OnlyTakes(n: nat)
    ensures Lasts(Takes(n), true)
  {
    if n > 0 {
      OnlyTakes(n - 1);
    }
  }

  lemma {:induction false} TakesSend(s: System, n: nat, batchSize: nat)
    requires s.conn.Some? && s.conn.value.replayed && s.conn.value.live == [] && s.conn.value.lastSent == 0
    requires s.feed.taken == 0 && n <= |s.feed.put| && s.feed.put == UpTo(|s.feed.put|)
    ensures After(s, Takes(n), batchSize)
         == System(s.feed.(taken := n), Some(s.conn.value.(live := UpTo(n), lastSent := n)))
  {
    if n == 0 {
      assert UpTo(0) == [];
    } else {
      TakesSend(s, n - 1, batchSize);
      Then(s, Takes(n - 1), Take, batchSize);
      UpToNext(n - 1);
    }
  }

  /** A first client of a run whose task has produced as many events as the store takes at a time, to nobody: it
      is sent all of them, and then all of them again. */
  lemma BackgroundRunSentTwice(batchSize: nat)
    requires batchSize >= 1
    ensures var h := Produce(batchSize) + [Connect(Absent)];
            var u := Finally(h, Takes(batchSize), batchSize);
            && Streams(h, Takes(batchSize), Absent, true, batchSize) && Queue(u.feed) == []
            && u.conn.Some? && Sent(u.conn.value) == UpTo(batchSize) + UpTo(batchSize)
  {
    var h, s := Produce(batchSize) + [Connect(Absent)], Producing(batchSize, batchSize);
    Produced(batchSize, batchSize, s);
    Then(START, Produce(batchSize), Connect(Absent), batchSize);
    ReplaysAll(batchSize, AtReplay(h, batchSize));
    OnlyTakes(batchSize);
    TakesSend(Step(AtReplay(h, batchSize), Replay, batchSize), batchSize, batchSize);
  }

  lemma ReplaysAll(n: nat, s: System)
    requires s.feed.stored == UpTo(n) && s.conn == Some(Connected(Absent))
    ensures Step(s, Replay, n) == System(s.feed, Some(Conn(Absent, true, UpTo(n), [], 0)))
  {
    AllBeyond(UpTo(n));
    assert [] + UpTo(n) == UpTo(n);
  }

  lemma {:induction false} AllBeyond(s: seq<nat>)
    ensures Beyond(s, Absent) == s
  {
    if s != [] {
      AllBeyond(s[1..]);
    }
  }

  /** A client that comes when an earlier connection has taken the only event, which waits in a batch: it is sent
      nothing. */
  lemma BatchedEventNeverSent(batchSize: nat)
    requires batchSize >= 2
    ensures var h := Produce(1) + [TakenElsewhere] + [Connect(Absent)];
            var u := Finally(h, [], batchSize);
            && Streams(h, [], Absent, true, batchSize) && u.feed.put == [1] && Queue(u.feed) == []
            && u.conn.Some? && Sent(u.conn.value) == []
  {
    var h, s := Produce(1), Producing(1, batchSize);
    Produced(1, batchSize, s);
    ThenTwo(START, h, TakenElsewhere, Connect(Absent), batchSize);
    TakenFromBatch(batchSize, s);
  }

  lemma TakenFromBatch(batchSize: nat, s: System)
    requires batchSize >= 2 && s == Producing(1, batchSize)
    ensures var f := s.feed.(taken := 1);
            && f.put == [1] && f.stored == []
            && Step(s, TakenElsewhere, batchSize) == System(f, None)
            && Step(System(f, None), Connect(Absent), batchSize) == System(f, Some(Connected(Absent)))
  {
  }

  /** An update that is filtered out takes a number, which neither queue nor store gets. */
  lemma FilteredUpdateLeavesGap(batchSize: nat)
    requires batchSize >= 2
    ensures var h := [] + [Put(PlainUpdate)] + [Save(RunLifecycle.Fine)] + [Put(Kept)] + [Save(RunLifecycle.Fine)];
            After(START, h, batchSize).feed.put == After(START, h, batchSize).feed.batch == [2]
  {
    ThenTwo(START, [], Put(PlainUpdate), Save(RunLifecycle.Fine), batchSize);
    ThenTwo(START, [] + [Put(PlainUpdate)] + [Save(RunLifecycle.Fine)], Put(Kept), Save(RunLifecycle.Fine), batchSize);
  }
}
