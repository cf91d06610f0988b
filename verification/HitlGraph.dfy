/** The human-in-the-loop agent graph: a message history driven by the model, an operator and tools. */
module HitlGraph {
  import opened Common

  /** A JSON value. A string carries what `json.loads` makes of it, if it parses. */
  datatype Json =
    | Null
    | Bool(b: bool)
    | Num(n: real)
    | Str(text: string, loads: Option<Json>)
    | Arr(items: seq<Json>)
    | Obj(fields: map<string, Json>)

  datatype Call = Call(id: string, name: string, args: Json)

  /** `Human` stands for every message that is neither the model's nor a tool's. */
  datatype Message =
    | Human(id: string, content: string)
    | AI(id: string, content: string, calls: seq<Call>)
    | Tool(id: string, content: string, callId: string, name: string)

  const EMPTY_OBJECT := Obj(map[])
  const OUT_OF_STEPS := "Sorry, I could not find an answer to your question in the specified number of steps."

  predicate HasCalls(m: Message) {
    m.AI? && m.calls != []
  }

  // ---------------------------------------------------------------------------
  // Merging messages by id
  // ---------------------------------------------------------------------------

  /** The last position of a message with this id. */
  function LastWithId(h: seq<Message>, id: string): (p: Option<nat>)
    ensures p.Some? ==> p.value < |h| && h[p.value].id == id
  {
    if h == [] then None
    else if h[|h| - 1].id == id then Some(|h| - 1)
    else LastWithId(h[..|h| - 1], id)
  }

  /** Replaces the message with the same id in place, or appends. */
  function AddMessage(h: seq<Message>, m: Message): seq<Message> {
    var p := LastWithId(h, m.id);
    if p.Some? then h[p.value := m] else h + [m]
  }

  function AddMessages(h: seq<Message>, more: seq<Message>): seq<Message>
    decreases |more|
  {
    if more == [] then h else AddMessages(AddMessage(h, more[0]), more[1..])
  }

  predicate FreshId(h: seq<Message>, id: string) {
    forall i :: 0 <= i < |h| ==> h[i].id != id
  }

  ghost predicate FreshMessages(h: seq<Message>, more: seq<Message>) {
    && (forall i :: 0 <= i < |more| ==> FreshId(h, more[i].id))
    && (forall i, j :: 0 <= i < j < |more| ==> more[i].id != more[j].id)
  }

  lemma FreshIsAppended(h: seq<Message>, m: Message)
    requires FreshId(h, m.id)
    ensures AddMessage(h, m) == h + [m]
  {
  }

  lemma FreshTail(h: seq<Message>, more: seq<Message>)
    requires FreshMessages(h, more) && more != []
    ensures FreshMessages(h + [more[0]], more[1..])
  {
    forall i | 0 <= i < |more| - 1 ensures FreshId(h + [more[0]], more[1..][i].id) {
      assert more[1..][i] == more[i + 1];
      assert FreshId(h, more[i + 1].id);
    }
  }

  lemma {:induction false} AddFresh(h: seq<Message>, more: seq<Message>)
    requires FreshMessages(h, more)
    ensures AddMessages(h, more) == h + more
    decreases |more|
  {
    if more != [] {
      var first, rest := more[0], more[1..];
      assert more == [first] + rest;
      FreshIsAppended(h, first);
      FreshTail(h, more);
      AddFresh(h + [first], rest);
      Reassociate(h, [first], rest);
    }
  }

  lemma Reassociate(a: seq<Message>, b: seq<Message>, c: seq<Message>)
    ensures a + b + c == a + (b + c)
  {
  }

  // ---------------------------------------------------------------------------
  // The helpers of the approval step
  // ---------------------------------------------------------------------------

  /** The latest message that calls tools. */
  function LatestToolMessage(h: seq<Message>): (m: Option<Message>)
    ensures m.Some? ==> m.value in h && HasCalls(m.value)
    ensures m.None? <==> forall i :: 0 <= i < |h| ==> !HasCalls(h[i])
  {
    if h == [] then None
    else if HasCalls(h[|h| - 1]) then Some(h[|h| - 1])
    else LatestToolMessage(h[..|h| - 1])
  }

  method FindToolMessage(h: seq<Message>) returns (m: Option<Message>)
    ensures m == LatestToolMessage(h)
    ensures m.Some? ==> exists i :: 0 <= i < |h| && h[i] == m.value && forall j :: i < j < |h| ==> !HasCalls(h[j])
  {
    var i := |h|;
    assert h[..i] == h;
    while i > 0
      invariant 0 <= i <= |h|
      invariant LatestToolMessage(h[..i]) == LatestToolMessage(h)
      invariant forall j :: i <= j < |h| ==> !HasCalls(h[j])
    {
      assert h[..i][..i - 1] == h[..i - 1];
      i := i - 1;
      if HasCalls(h[i]) {
        return Some(h[i]);
      }
    }
    return None;
  }

  function Cancellation(call: Call, reason: string, id: string): Message {
    Tool(id, "Tool execution " + reason + ".", call.id, call.name)
  }

  /** One cancellation for each call; the ids are those the merge assigns. */
  function Cancellations(calls: seq<Call>, reason: string, ids: seq<string>): seq<Message>
    requires |ids| == |calls|
  {
    seq(|calls|, i requires 0 <= i < |calls| => Cancellation(calls[i], reason, ids[i]))
  }

  function ParseArgs(args: Json): Json {
    match args
    case Str(_, loads) => if loads.Some? then loads.value else EMPTY_OBJECT
    case Obj(_) => args
    case _ => EMPTY_OBJECT
  }

  predicate OccursAt(part: string, whole: string, i: int) {
    0 <= i <= |whole| - |part| && whole[i..i + |part|] == part
  }

  predicate Substring(part: string, whole: string) {
    exists i :: 0 <= i <= |whole| && OccursAt(part, whole, i)
  }

  /** What the edit holds for a tool: looking it up raises unless the edit is an object, or a list or
      string in which the name does not occur. */
  datatype Lookup = Absent | Present(value: Json) | Raises

  function EditFor(edits: Json, name: string): Lookup {
    match edits
    case Obj(fields) => if name in fields then Present(fields[name]) else Absent
    case Arr(items) =>
      if exists i :: 0 <= i < |items| && items[i].Str? && items[i].text == name then Raises else Absent
    case Str(text, _) => if Substring(name, text) then Raises else Absent
    case _ => Raises
  }

  function UpdatedCall(call: Call, edits: Json): Call {
    var edit := EditFor(edits, call.name);
    call.(args := ParseArgs(if edit.Present? then edit.value else call.args))
  }

  /** The updated calls, or None when the update raises. */
  function UpdatedCalls(calls: seq<Call>, edits: Json): Option<seq<Call>> {
    if exists i :: 0 <= i < |calls| && EditFor(edits, calls[i].name).Raises? then None
    else Some(seq(|calls|, i requires 0 <= i < |calls| => UpdatedCall(calls[i], edits)))
  }

  method UpdateToolCalls(calls: seq<Call>, edits: Json) returns (updated: Option<seq<Call>>)
    ensures updated == UpdatedCalls(calls, edits)
  {
    var done: seq<Call> := [];
    var i := 0;
    while i < |calls|
      invariant 0 <= i <= |calls| && |done| == i
      invariant forall j :: 0 <= j < i ==>
          !EditFor(edits, calls[j].name).Raises? && done[j] == UpdatedCall(calls[j], edits)
    {
      var call := calls[i];
      var edit := EditFor(edits, call.name);
      if edit.Raises? {
        return None;
      } else if edit.Present? {
        call := call.(args := ParseArgs(edit.value));
      } else {
        call := call.(args := ParseArgs(call.args));
      }
      done := done + [call];
      i := i + 1;
    }
    assert forall j :: 0 <= j < |calls| ==> !EditFor(edits, calls[j].name).Raises?;
    assert done == UpdatedCalls(calls, edits).value;
    return Some(done);
  }

  /** The message constructor refuses a call whose arguments are not an object. */
  predicate Accepted(calls: seq<Call>) {
    forall i :: 0 <= i < |calls| ==> calls[i].args.Obj?
  }

  // ---------------------------------------------------------------------------
  // The nodes
  // ---------------------------------------------------------------------------

  datatype Node = CallModel | HumanApproval | Tools | End

  datatype State = State(node: Node, messages: seq<Message>)

  /** What a node does to the state, or that it raises. */
  datatype Outcome = Went(state: State) | Raised

  function RouteModelOutput(h: seq<Message>): Option<Node> {
    if h == [] || !h[|h| - 1].AI? then None
    else Some(if h[|h| - 1].calls == [] then End else HumanApproval)
  }

  /** Python's truth of a JSON value. */
  predicate Truthy(v: Json) {
    match v
    case Null => false
    case Bool(b) => b
    case Num(n) => n != 0.0
    case Str(text, _) => text != ""
    case Arr(items) => items != []
    case Obj(fields) => fields != map[]
  }

  /** The operator's answer as the approval step reads it. */
  datatype Decision = Dismissed | Malformed | Accept | Respond | Edit(edits: Json) | Cancel(reason: string)

  function Decide(response: Json): Decision {
    if !Truthy(response) || !response.Arr? then Dismissed
    else
      var first := response.items[0];
      if !first.Obj? then Malformed
      else
        var kind := if "type" in first.fields then first.fields["type"] else Str("", None);
        var args := if "args" in first.fields then first.fields["args"] else Null;
        if !kind.Str? then Cancel("invalid format")
        else if kind.text == "accept" then Accept
        else if kind.text == "response" then Respond
        else if kind.text == "edit" && args.Obj? && "args" in args.fields then Edit(args.fields["args"])
        else Cancel(if kind.text == "ignore" then "cancelled by human operator" else "invalid format")
  }

  /** The approval step once the operator has answered. `text` is the answer's arguments as text and
      `ids` are the ids that the merge assigns to the new messages. */
  function Approve(h: seq<Message>, response: Json, text: string, ids: seq<string>): Outcome
    requires LatestToolMessage(h).Some? ==> |ids| == |LatestToolMessage(h).value.calls| + 1
  {
    var found := LatestToolMessage(h);
    if found.None? then Went(State(End, h))
    else
      var m := found.value;
      var n := |m.calls|;
      match Decide(response)
      case Dismissed => Went(State(End, h))
      case Malformed => Raised
      case Accept => Went(State(Tools, h))
      case Respond =>
        var answers := Cancellations(m.calls, "was interrupted for human input", ids[..n]);
        Went(State(CallModel, AddMessages(h, answers + [Human(ids[n], text)])))
      case Edit(edits) =>
        var updated := UpdatedCalls(m.calls, edits);
        if updated.None? || !Accepted(updated.value) then Raised
        else Went(State(Tools, AddMessages(h, [AI(m.id, m.content, updated.value)])))
      case Cancel(reason) =>
        Went(State(End, AddMessages(h, Cancellations(m.calls, reason, ids[..n]))))
  }

  /** One result for each call of the last message. */
  function Results(calls: seq<Call>, contents: seq<string>, ids: seq<string>): seq<Message>
    requires |contents| == |ids| == |calls|
  {
    seq(|calls|, i requires 0 <= i < |calls| => Tool(ids[i], contents[i], calls[i].id, calls[i].name))
  }

  /** The outside world: the model replies, the operator answers, the tools return, or a node raises. */
  datatype Event =
    | Reply(message: Message, lastStep: bool)
    | Answer(response: Json, text: string, ids: seq<string>)
    | ToolResults(contents: seq<string>, ids: seq<string>)
    | Fails

  /** The reply as the model node passes it on: without its calls when no step is left for them. */
  function Passed(e: Event): Message
    requires e.Reply?
  {
    if e.lastStep && HasCalls(e.message) then AI(e.message.id, OUT_OF_STEPS, []) else e.message
  }

  /** What can happen next: replies are well-typed messages of the model, new ids are unused. */
  ghost predicate Possible(s: State, e: Event) {
    match e
    case Fails => s.node != End
    case Reply(m, _) => s.node == CallModel && m.AI? && Accepted(m.calls) && FreshId(s.messages, m.id)
    case Answer(_, _, ids) =>
      && s.node == HumanApproval
      && (LatestToolMessage(s.messages).Some? ==> |ids| == |LatestToolMessage(s.messages).value.calls| + 1)
      && FreshIds(s.messages, ids)
    case ToolResults(contents, ids) =>
      && s.node == Tools && s.messages != [] && HasCalls(s.messages[|s.messages| - 1])
      && |contents| == |ids| == |s.messages[|s.messages| - 1].calls|
      && FreshIds(s.messages, ids)
  }

  ghost predicate FreshIds(h: seq<Message>, ids: seq<string>) {
    && (forall i :: 0 <= i < |ids| ==> FreshId(h, ids[i]))
    && (forall i, j :: 0 <= i < j < |ids| ==> ids[i] != ids[j])
  }

  ghost function Happens(s: State, e: Event): Outcome
    requires Possible(s, e)
  {
    match e
    case Fails => Raised
    case Reply(_, _) =>
      var h := AddMessages(s.messages, [Passed(e)]);
      var next := RouteModelOutput(h);
      if next.None? then Raised else Went(State(next.value, h))
    case Answer(response, text, ids) => Approve(s.messages, response, text, ids)
    case ToolResults(contents, ids) =>
      var calls := s.messages[|s.messages| - 1].calls;
      Went(State(CallModel, AddMessages(s.messages, Results(calls, contents, ids))))
  }

  /** A node that raises leaves the last checkpoint, from which it runs again. */
  ghost function Step(s: State, e: Event): State
    requires Possible(s, e)
  {
    var o := Happens(s, e);
    if o.Raised? then s else o.state
  }

  /** `events` is a run of the graph from history `h` to state `s`. */
  ghost predicate Reaches(h: seq<Message>, events: seq<Event>, s: State)
    decreases events
  {
    if events == [] then s == State(CallModel, h)
    else
      var n := |events| - 1;
      exists t :: Reaches(h, events[..n], t) && Possible(t, events[n]) && s == Step(t, events[n])
  }

  // ---------------------------------------------------------------------------
  // Well-formed histories
  // ---------------------------------------------------------------------------

  function Ids(calls: seq<Call>): seq<string> {
    seq(|calls|, i requires 0 <= i < |calls| => calls[i].id)
  }

  /** The call ids a message opens. */
  function Opens(m: Message): multiset<string> {
    if m.AI? then multiset(Ids(m.calls)) else multiset{}
  }

  /** Reads the history with `open` calls pending; None when a message other than a pending answer comes
      too early, or an answer belongs to no pending call. */
  function Pending(h: seq<Message>, open: multiset<string>): Option<multiset<string>> {
    if h == [] then Some(open)
    else if h[0].Tool? then
      if h[0].callId in open then Pending(h[1..], open - multiset{h[0].callId}) else None
    else if open == multiset{} then Pending(h[1..], Opens(h[0]))
    else None
  }

  predicate WellFormed(h: seq<Message>) {
    Pending(h, multiset{}) == Some(multiset{})
  }

  /** How many answers to `id` come before the next message that is not a tool's. */
  function AnswersTo(h: seq<Message>, id: string): nat {
    if h == [] || !h[0].Tool? then 0
    else (if h[0].callId == id then 1 else 0) + AnswersTo(h[1..], id)
  }

  /** `open` is answered first; then every message is followed, before the next one that is not a
      tool's, by exactly one answer to each of its calls and by no other. */
  ghost predicate AnsweredInTurn(h: seq<Message>, open: multiset<string>) {
    && (forall id :: AnswersTo(h, id) == open[id])
    && (forall i, id :: 0 <= i < |h| && !h[i].Tool? ==> AnswersTo(h[i + 1..], id) == Opens(h[i])[id])
  }

  lemma {:induction false} PendingIffAnswered(h: seq<Message>, open: multiset<string>)
    ensures Pending(h, open) == Some(multiset{}) <==> AnsweredInTurn(h, open)
    decreases |h|
  {
    if h == [] {
      if AnsweredInTurn(h, open) {
        forall id ensures open[id] == 0 {
          assert AnswersTo(h, id) == open[id];
        }
        assert open == multiset{};
      }
    } else if h[0].Tool? {
      ToolFirst(h, open);
    } else {
      OtherFirst(h, open);
    }
  }

  lemma {:induction false} ToolFirst(h: seq<Message>, open: multiset<string>)
    requires h != [] && h[0].Tool?
    ensures Pending(h, open) == Some(multiset{}) <==> AnsweredInTurn(h, open)
    decreases |h|, 0
  {
    var c, t := h[0].callId, h[1..];
    assert AnswersTo(h, c) >= 1;
    if c in open {
      var rest := open - multiset{c};
      PendingIffAnswered(t, rest);
      if AnsweredInTurn(t, rest) {
        forall id ensures AnswersTo(h, id) == open[id] {
          assert AnswersTo(t, id) == rest[id];
        }
        forall i, id | 0 <= i < |h| && !h[i].Tool? ensures AnswersTo(h[i + 1..], id) == Opens(h[i])[id] {
          assert h[i] == t[i - 1] && h[i + 1..] == t[i - 1 + 1..];
        }
      }
      if AnsweredInTurn(h, open) {
        forall id ensures AnswersTo(t, id) == rest[id] {
          assert AnswersTo(h, id) == open[id];
        }
        forall i, id | 0 <= i < |t| && !t[i].Tool? ensures AnswersTo(t[i + 1..], id) == Opens(t[i])[id] {
          assert t[i] == h[i + 1] && t[i + 1..] == h[i + 1 + 1..];
        }
      }
    }
  }

  lemma {:induction false} OtherFirst(h: seq<Message>, open: multiset<string>)
    requires h != [] && !h[0].Tool?
    ensures Pending(h, open) == Some(multiset{}) <==> AnsweredInTurn(h, open)
    decreases |h|, 0
  {
    var t, opened' := h[1..], Opens(h[0]);
    PendingIffAnswered(t, opened');
    if AnsweredInTurn(h, open) {
      forall id ensures open[id] == 0 {
        assert AnswersTo(h, id) == open[id];
      }
      assert open == multiset{};
      forall id ensures AnswersTo(t, id) == opened'[id] {
        assert AnswersTo(h[0 + 1..], id) == Opens(h[0])[id];
      }
      forall i, id | 0 <= i < |t| && !t[i].Tool? ensures AnswersTo(t[i + 1..], id) == Opens(t[i])[id] {
        assert t[i] == h[i + 1] && t[i + 1..] == h[i + 1 + 1..];
      }
    }
    if open == multiset{} && AnsweredInTurn(t, opened') {
      forall i, id | 0 <= i < |h| && !h[i].Tool? ensures AnswersTo(h[i + 1..], id) == Opens(h[i])[id] {
        if i > 0 {
          assert h[i] == t[i - 1] && h[i + 1..] == t[i - 1 + 1..];
        }
      }
    }
  }

  /** A history is well formed exactly when every call is answered in turn and nothing else is; with
      distinct call ids, each call has exactly one answer before the next message that is not a tool's. */
  lemma WellFormedIff(h: seq<Message>)
    ensures WellFormed(h) <==> AnsweredInTurn(h, multiset{})
  {
    PendingIffAnswered(h, multiset{});
  }

  lemma ExactlyOneAnswer(h: seq<Message>, i: nat, k: nat)
    requires WellFormed(h) && i < |h| && h[i].AI? && k < |h[i].calls|
    requires forall a, b :: 0 <= a < b < |h[i].calls| ==> h[i].calls[a].id != h[i].calls[b].id
    ensures AnswersTo(h[i + 1..], h[i].calls[k].id) == 1
  {
    WellFormedIff(h);
    var ids := Ids(h[i].calls);
    assert AnswersTo(h[i + 1..], ids[k]) == Opens(h[i])[ids[k]];
    OccursOnce(ids, k);
  }

  lemma OccursOnce(ids: seq<string>, k: nat)
    requires k < |ids| && forall a, b :: 0 <= a < b < |ids| ==> ids[a] != ids[b]
    ensures multiset(ids)[ids[k]] == 1
  {
    var x := ids[k];
    assert ids == ids[..k] + [x] + ids[k + 1..];
    assert x !in ids[..k] && x !in ids[k + 1..];
    assert multiset(ids) == multiset(ids[..k]) + multiset{x} + multiset(ids[k + 1..]);
  }

  lemma {:induction false} PendingAppend(a: seq<Message>, b: seq<Message>, open: multiset<string>)
    requires Pending(a, open).Some?
    ensures Pending(a + b, open) == Pending(b, Pending(a, open).value)
    decreases |a|
  {
    if a == [] {
      assert a + b == b;
    } else {
      assert (a + b)[1..] == a[1..] + b;
      PendingAppend(a[1..], b, if a[0].Tool? then open - multiset{a[0].callId} else Opens(a[0]));
    }
  }

  /** `answers` answers `calls`, one by one. */
  ghost predicate Answers(answers: seq<Message>, calls: seq<Call>) {
    |answers| == |calls|
    && forall i :: 0 <= i < |calls| ==>
        answers[i].Tool? && answers[i].callId == calls[i].id && answers[i].name == calls[i].name
  }

  lemma {:induction false} AnswersClose(answers: seq<Message>, calls: seq<Call>)
    requires Answers(answers, calls)
    ensures Pending(answers, multiset(Ids(calls))) == Some(multiset{})
    decreases |calls|
  {
    if calls != [] {
      AnswersClose(answers[1..], calls[1..]);
      assert Ids(calls) == [calls[0].id] + Ids(calls[1..]);
      assert multiset(Ids(calls)) - multiset{calls[0].id} == multiset(Ids(calls[1..]));
    }
  }

  // ---------------------------------------------------------------------------
  // What every run keeps
  // ---------------------------------------------------------------------------

  /** A well-formed history and then one message that calls tools. */
  ghost predicate AwaitsAnswers(h: seq<Message>) {
    h != [] && HasCalls(h[|h| - 1]) && WellFormed(h[..|h| - 1])
  }

  lemma AwaitingFinds(h: seq<Message>)
    requires AwaitsAnswers(h)
    ensures LatestToolMessage(h) == Some(h[|h| - 1])
  {
  }

  lemma PendingAfter(m: Message, answers: seq<Message>)
    requires !m.Tool?
    ensures Pending([m] + answers, multiset{}) == Pending(answers, Opens(m))
  {
    assert ([m] + answers)[1..] == answers;
  }

  lemma AnsweredIsWellFormed(h: seq<Message>, answers: seq<Message>)
    requires AwaitsAnswers(h) && Answers(answers, h[|h| - 1].calls)
    ensures WellFormed(h + answers)
  {
    var init, m := h[..|h| - 1], h[|h| - 1];
    PendingAppend(init, [m] + answers, multiset{});
    PendingAfter(m, answers);
    AnswersClose(answers, m.calls);
    Reassociate(init, [m], answers);
    assert h == init + [m];
  }

  lemma OtherKeepsWellFormed(h: seq<Message>, m: Message)
    requires WellFormed(h) && !m.Tool? && Opens(m) == multiset{}
    ensures WellFormed(h + [m])
  {
    PendingAppend(h, [m], multiset{});
    assert [m][1..] == [];
  }

  /** A pending call leaves the history ill formed. */
  lemma AwaitingIsIllFormed(h: seq<Message>)
    requires AwaitsAnswers(h)
    ensures !WellFormed(h)
  {
    var init, m := h[..|h| - 1], h[|h| - 1];
    PendingAppend(init, [m], multiset{});
    assert h == init + [m] && [m][1..] == [];
    assert Ids(m.calls)[0] in multiset(Ids(m.calls));
  }

  function Last(h: seq<Message>): Message
    requires h != []
  {
    h[|h| - 1]
  }

  /** The latest event that is not a failure, and the latest reply as it was passed on. */
  function LastDone(events: seq<Event>): (e: Option<Event>)
    ensures e.Some? ==> !e.value.Fails?
  {
    if events == [] then None
    else if !events[|events| - 1].Fails? then Some(events[|events| - 1])
    else LastDone(events[..|events| - 1])
  }

  function LastReply(events: seq<Event>): Option<Message> {
    if events == [] then None
    else if events[|events| - 1].Reply? then Some(Passed(events[|events| - 1]))
    else LastReply(events[..|events| - 1])
  }

  // The operator's answer, as it is sent: a list whose first item says what to do.

  /** The answer's first item is an object whose type is this text. */
  predicate Says(response: Json, kind: string) {
    response.Arr? && response.items != [] && response.items[0].Obj?
    && "type" in response.items[0].fields
    && response.items[0].fields["type"].Str? && response.items[0].fields["type"].text == kind
  }

  /** It says "edit", and its arguments are an object that holds `args`. */
  predicate SaysEdit(response: Json) {
    Says(response, "edit") && "args" in response.items[0].fields
    && response.items[0].fields["args"].Obj? && "args" in response.items[0].fields["args"].fields
  }

  function EditsIn(response: Json): Json
    requires SaysEdit(response)
  {
    response.items[0].fields["args"].fields["args"]
  }

  /** What an edit to `value` makes of a call's arguments. */
  predicate EditedTo(value: Json, args: Json) {
    match value
    case Obj(_) => args == value
    case Str(_, loads) => args == if loads.Some? then loads.value else Obj(map[])
    case _ => args == Obj(map[])
  }

  /** `m` is what the operator's answer makes of the model's reply: the same calls in the same order, with other
      arguments only where an edit names the tool, and then the edit's. */
  ghost predicate Approved(m: Message, reply: Message, response: Json) {
    && m.AI? && reply.AI? && m.id == reply.id && m.content == reply.content && |m.calls| == |reply.calls|
    && (Says(response, "accept") ==> m == reply)
    && forall i :: 0 <= i < |m.calls| ==>
         && m.calls[i].id == reply.calls[i].id && m.calls[i].name == reply.calls[i].name
         && if SaysEdit(response) && EditsIn(response).Obj? && m.calls[i].name in EditsIn(response).fields
            then EditedTo(EditsIn(response).fields[m.calls[i].name], m.calls[i].args)
            else m.calls[i].args == reply.calls[i].args
  }

  /** The last event was an answer that is falsy or not a list. */
  ghost predicate WasDismissed(events: seq<Event>) {
    var e := LastDone(events);
    e.Some? && e.value.Answer? && !(e.value.response.Arr? && e.value.response.items != [])
  }

  /** The last event was the operator's, who accepted or edited what the model had asked for. */
  ghost predicate WasApproved(events: seq<Event>, m: Message) {
    var e, reply := LastDone(events), LastReply(events);
    && e.Some? && e.value.Answer? && reply.Some?
    && (Says(e.value.response, "accept") || SaysEdit(e.value.response))
    && Approved(m, reply.value, e.value.response)
  }

  /** How the answer is read. */
  lemma DecidesOn(response: Json)
    ensures Decide(response).Dismissed? <==> !(response.Arr? && response.items != [])
    ensures Decide(response).Malformed? <==> response.Arr? && response.items != [] && !response.items[0].Obj?
    ensures Decide(response).Accept? <==> Says(response, "accept")
    ensures Decide(response).Respond? <==> Says(response, "response")
    ensures Decide(response).Edit? <==> SaysEdit(response)
    ensures SaysEdit(response) ==> Decide(response).edits == EditsIn(response)
    ensures Decide(response).Cancel? ==>
              Decide(response).reason
              == if Says(response, "ignore") then "cancelled by human operator" else "invalid format"
  {
  }

  /** What holds after every event of a run from a well-formed history. */
  ghost predicate Inv(h: seq<Message>, events: seq<Event>, s: State) {
    match s.node
    case CallModel => WellFormed(s.messages) && h <= s.messages
    case HumanApproval =>
      && AwaitsAnswers(s.messages) && h <= s.messages[..|s.messages| - 1]
      && LastReply(events) == Some(Last(s.messages)) && Accepted(Last(s.messages).calls)
    case Tools =>
      && AwaitsAnswers(s.messages) && h <= s.messages[..|s.messages| - 1]
      && WasApproved(events, Last(s.messages))
    case End => h <= s.messages && (WellFormed(s.messages) <==> !WasDismissed(events))
  }

  lemma ReplyKeepsInv(h: seq<Message>, events: seq<Event>, s: State, e: Event)
    requires Possible(s, e) && e.Reply? && WellFormed(s.messages) && h <= s.messages
    requires LastDone(events) == Some(e) && LastReply(events) == Some(Passed(e))
    ensures Inv(h, events, Step(s, e))
  {
    var m := Passed(e);
    AddFresh(s.messages, [m]);
    var now := s.messages + [m];
    assert now[..|now| - 1] == s.messages;
    if !HasCalls(m) {
      OtherKeepsWellFormed(s.messages, m);
    }
  }

  lemma FreshAnswers(h: seq<Message>, more: seq<Message>, ids: seq<string>)
    requires FreshIds(h, ids) && |more| <= |ids|
    requires forall i :: 0 <= i < |more| ==> more[i].id == ids[i]
    ensures AddMessages(h, more) == h + more
  {
    AddFresh(h, more);
  }

  lemma ResultsKeepInv(h: seq<Message>, events: seq<Event>, s: State, e: Event)
    requires Possible(s, e) && e.ToolResults? && AwaitsAnswers(s.messages) && h <= s.messages
    ensures Inv(h, events, Step(s, e))
    ensures Step(s, e).messages == s.messages + Results(Last(s.messages).calls, e.contents, e.ids)
  {
    var results := Results(Last(s.messages).calls, e.contents, e.ids);
    FreshAnswers(s.messages, results, e.ids);
    AnsweredIsWellFormed(s.messages, results);
  }

  lemma CancellationsClose(h: seq<Message>, reason: string, ids: seq<string>)
    requires AwaitsAnswers(h) && FreshIds(h, ids) && |ids| == |Last(h).calls| + 1
    ensures var answers := Cancellations(Last(h).calls, reason, ids[..|Last(h).calls|]);
            AddMessages(h, answers) == h + answers && WellFormed(h + answers)
  {
    var answers := Cancellations(Last(h).calls, reason, ids[..|Last(h).calls|]);
    FreshAnswers(h, answers, ids);
    AnsweredIsWellFormed(h, answers);
  }

  lemma RespondCloses(h: seq<Message>, text: string, ids: seq<string>)
    requires AwaitsAnswers(h) && FreshIds(h, ids) && |ids| == |Last(h).calls| + 1
    ensures var answers := Cancellations(Last(h).calls, "was interrupted for human input", ids[..|Last(h).calls|]);
            var more := answers + [Human(ids[|Last(h).calls|], text)];
            AddMessages(h, more) == h + more && WellFormed(h + more)
  {
    var answers := Cancellations(Last(h).calls, "was interrupted for human input", ids[..|Last(h).calls|]);
    var m := Human(ids[|Last(h).calls|], text);
    CancellationsClose(h, "was interrupted for human input", ids);
    FreshAnswers(h, answers + [m], ids);
    OtherKeepsWellFormed(h + answers, m);
    assert h + answers + [m] == h + (answers + [m]);
  }

  /** The edited message takes the place of the reply. */
  lemma EditReplaces(h: seq<Message>, calls: seq<Call>)
    requires h != []
    ensures AddMessages(h, [AI(Last(h).id, Last(h).content, calls)])
         == h[|h| - 1 := AI(Last(h).id, Last(h).content, calls)]
  {
  }

  lemma EditIsApproved(m: Message, response: Json)
    requires m.AI? && Accepted(m.calls) && SaysEdit(response)
    requires UpdatedCalls(m.calls, EditsIn(response)).Some?
    ensures Approved(AI(m.id, m.content, UpdatedCalls(m.calls, EditsIn(response)).value), m, response)
  {
  }

  /** The operator is being asked about the model's latest reply, the last message. */
  ghost predicate Asking(h: seq<Message>, events: seq<Event>, s: State, e: Event) {
    && Possible(s, e) && e.Answer? && AwaitsAnswers(s.messages) && h <= s.messages[..|s.messages| - 1]
    && Accepted(Last(s.messages).calls)
    && LastReply(events) == Some(Last(s.messages)) && LastDone(events) == Some(e)
  }

  /** What an edit does: it raises, or puts the edited message in the place of the reply. */
  lemma EditStep(s: State, e: Event, edits: Json)
    requires Possible(s, e) && e.Answer? && AwaitsAnswers(s.messages) && SaysEdit(e.response)
    requires edits == EditsIn(e.response)
    ensures var was, m := s.messages, Last(s.messages);
            var updated := UpdatedCalls(m.calls, edits);
            Step(s, e) == if updated.None? || !Accepted(updated.value) then s
                          else State(Tools, was[|was| - 1 := AI(m.id, m.content, updated.value)])
  {
    AwaitingFinds(s.messages);
    DecidesOn(e.response);
    var updated := UpdatedCalls(Last(s.messages).calls, edits);
    if updated.Some? {
      EditReplaces(s.messages, updated.value);
    }
  }

  lemma EditKeepsInv(h: seq<Message>, events: seq<Event>, s: State, e: Event)
    requires Asking(h, events, s, e) && SaysEdit(e.response)
    ensures Inv(h, events, Step(s, e))
  {
    var was, m, edits := s.messages, Last(s.messages), EditsIn(e.response);
    EditStep(s, e, edits);
    var updated := UpdatedCalls(m.calls, edits);
    if updated.Some? && Accepted(updated.value) {
      EditIsApproved(m, e.response);
      assert was[|was| - 1 := AI(m.id, m.content, updated.value)][..|was| - 1] == was[..|was| - 1];
    }
  }

  lemma {:induction false} CancelKeepsInv(h: seq<Message>, events: seq<Event>, s: State, e: Event)
    requires Asking(h, events, s, e) && Decide(e.response).Cancel?
    ensures Inv(h, events, Step(s, e))
  {
    var was, reason := s.messages, Decide(e.response).reason;
    DecidesOn(e.response);
    AwaitingFinds(was);
    CancellationsClose(was, reason, e.ids);
    assert Step(s, e) == State(End, was + Cancellations(Last(was).calls, reason, e.ids[..|Last(was).calls|]));
  }

  lemma RespondKeepsInv(h: seq<Message>, events: seq<Event>, s: State, e: Event)
    requires Asking(h, events, s, e) && Decide(e.response).Respond?
    ensures Inv(h, events, Step(s, e))
  {
    DecidesOn(e.response);
    AwaitingFinds(s.messages);
    RespondCloses(s.messages, e.text, e.ids);
  }

  lemma AnswerKeepsInv(h: seq<Message>, events: seq<Event>, s: State, e: Event)
    requires Asking(h, events, s, e)
    ensures Inv(h, events, Step(s, e))
  {
    AwaitingFinds(s.messages);
    DecidesOn(e.response);
    match Decide(e.response) {
      case Dismissed => AwaitingIsIllFormed(s.messages);
      case Malformed =>
      case Accept =>
      case Respond => RespondKeepsInv(h, events, s, e);
      case Edit(edits) => EditKeepsInv(h, events, s, e);
      case Cancel(reason) => CancelKeepsInv(h, events, s, e);
    }
  }

  lemma EventKeepsInv(h: seq<Message>, init: seq<Event>, t: State, e: Event)
    requires Inv(h, init, t) && Possible(t, e)
    ensures Inv(h, init + [e], Step(t, e))
  {
    var events := init + [e];
    assert events[..|init|] == init;
    match e {
      case Fails =>
      case Reply(_, _) => ReplyKeepsInv(h, events, t, e);
      case Answer(_, _, _) => AnswerKeepsInv(h, events, t, e);
      case ToolResults(_, _) => ResultsKeepInv(h, events, t, e);
    }
  }

  /** The last event of a run, and the state before it. */
  lemma Before(h: seq<Message>, events: seq<Event>, s: State) returns (init: seq<Event>, t: State, e: Event)
    requires events != [] && Reaches(h, events, s)
    ensures events == init + [e] && Reaches(h, init, t) && Possible(t, e) && s == Step(t, e)
  {
    var n := |events| - 1;
    init, e := events[..n], events[n];
    t :| Reaches(h, events[..n], t) && Possible(t, events[n]) && s == Step(t, events[n]);
  }

  lemma {:induction false} RunKeepsInv(h: seq<Message>, events: seq<Event>, s: State)
    requires WellFormed(h) && Reaches(h, events, s)
    ensures Inv(h, events, s)
    decreases |events|
  {
    if events != [] {
      var init, t, e := Before(h, events, s);
      RunKeepsInv(h, init, t);
      EventKeepsInv(h, init, t, e);
    }
  }

  /** In every run from a well-formed history, the model is only ever called on a well-formed history
      that extends the first one. */
  lemma ModelSeesWellFormed(h: seq<Message>, events: seq<Event>, s: State)
    requires WellFormed(h) && Reaches(h, events, s) && s.node == CallModel
    ensures AnsweredInTurn(s.messages, multiset{}) && h <= s.messages
  {
    RunKeepsInv(h, events, s);
    WellFormedIff(s.messages);
  }

  /** A run ends with a well-formed history exactly when it did not end by an operator's response that
      is empty or not a list. */
  lemma EndIsWellFormedIff(h: seq<Message>, events: seq<Event>, s: State)
    requires WellFormed(h) && Reaches(h, events, s)
    ensures s.node == End ==> (AnsweredInTurn(s.messages, multiset{}) <==> !WasDismissed(events)) && h <= s.messages
  {
    RunKeepsInv(h, events, s);
    WellFormedIff(s.messages);
  }

  /** Tools only run on the operator's word: when they do, the last event was an answer that accepts or
      edits, the message they run is the last of the history and is what that answer makes of the model's
      latest reply, and they answer exactly its calls. */
  lemma NoToolRunsUngated(h: seq<Message>, events: seq<Event>, s: State, e: Event)
    requires WellFormed(h) && Reaches(h, events, s) && s.node == Tools && Possible(s, e) && e.ToolResults?
    ensures WasApproved(events, Last(s.messages))
    ensures var results := Results(Last(s.messages).calls, e.contents, e.ids);
            && Step(s, e) == State(CallModel, s.messages + results)
            && Answers(results, Last(s.messages).calls)
            && forall i :: 0 <= i < |results| ==> results[i].id == e.ids[i] && results[i].content == e.contents[i]
  {
    RunKeepsInv(h, events, s);
    ResultsKeepInv(h, events, s, e);
  }

  /** From any state, tools are reached from the approval step alone, by an answer that accepts or edits. */
  lemma OnlyApprovalLeadsToTools(s: State, e: Event)
    requires Possible(s, e)
    ensures s.node != Tools && Step(s, e).node == Tools ==>
              s.node == HumanApproval && e.Answer? && (Says(e.response, "accept") || SaysEdit(e.response))
  {
    if e.Answer? {
      DecidesOn(e.response);
    }
  }

  /** A value that `ParseArgs` turns into an object: anything but a string that holds another value. */
  predicate ParsesToObject(args: Json) {
    args.Str? && args.loads.Some? ==> args.loads.value.Obj?
  }

  /** What an edit has to look like for a tool's call to go through. */
  predicate Usable(edits: Json, name: string) {
    match edits
    case Obj(fields) => name in fields ==> ParsesToObject(fields[name])
    case Arr(items) => forall i :: 0 <= i < |items| && items[i].Str? ==> items[i].text != name
    case Str(text, _) => !Substring(name, text)
    case _ => false
  }

  /** An edit lets the tools run exactly when it is usable for every call; otherwise the step raises. */
  lemma EditGoesThroughIff(h: seq<Message>, response: Json, text: string, ids: seq<string>)
    requires AwaitsAnswers(h) && Accepted(Last(h).calls) && SaysEdit(response)
    requires |ids| == |Last(h).calls| + 1
    ensures LatestToolMessage(h) == Some(Last(h))
    ensures var calls, o := Last(h).calls, Approve(h, response, text, ids);
            if forall i :: 0 <= i < |calls| ==> Usable(EditsIn(response), calls[i].name)
            then o.Went? && o.state.node == Tools else o == Raised
  {
    AwaitingFinds(h);
    DecidesOn(response);
    EditUsable(Last(h).calls, EditsIn(response));
  }

  lemma EditUsable(calls: seq<Call>, edits: Json)
    requires Accepted(calls)
    ensures (UpdatedCalls(calls, edits).Some? && Accepted(UpdatedCalls(calls, edits).value))
       <==> forall i :: 0 <= i < |calls| ==> Usable(edits, calls[i].name)
  {
    forall i | 0 <= i < |calls|
      ensures Usable(edits, calls[i].name)
         <==> !EditFor(edits, calls[i].name).Raises? && UpdatedCall(calls[i], edits).args.Obj?
    {
    }
    var updated := UpdatedCalls(calls, edits);
    if updated.Some? {
      forall i | 0 <= i < |calls| ensures updated.value[i] == UpdatedCall(calls[i], edits) {
      }
    }
  }

  // ---------------------------------------------------------------------------
  // Every step, case by case
  // ---------------------------------------------------------------------------

  /** A tool's message for each call that says why it was not run. */
  ghost predicate AllRefused(answers: seq<Message>, calls: seq<Call>, ids: seq<string>, reason: string) {
    |answers| == |calls| <= |ids|
    && forall i :: 0 <= i < |calls| ==>
        answers[i] == Tool(ids[i], "Tool execution " + reason + ".", calls[i].id, calls[i].name)
  }

  /** A reply that calls no tools ends the run; one that does goes to the operator, or, when no step is left for
      them, is replaced by an apology that ends it. */
  lemma ReplyCases(s: State, e: Event)
    requires Possible(s, e) && e.Reply?
    ensures var m := e.message;
            Step(s, e) == if m.calls == [] then State(End, s.messages + [m])
                          else if e.lastStep then State(End, s.messages + [AI(m.id, OUT_OF_STEPS, [])])
                          else State(HumanApproval, s.messages + [m])
  {
    AddFresh(s.messages, [Passed(e)]);
  }

  /** Messages that refuse the calls, then the end of the run. */
  lemma RefusalEnds(s: State, e: Event, reason: string)
    requires Possible(s, e) && e.Answer? && AwaitsAnswers(s.messages) && Decide(e.response) == Cancel(reason)
    ensures var h, calls, t := s.messages, Last(s.messages).calls, Step(s, e);
            t.node == End && h <= t.messages
            && AllRefused(t.messages[|h|..], calls, e.ids, reason)
  {
    AwaitingFinds(s.messages);
    CancellationsClose(s.messages, reason, e.ids);
    var answers := Cancellations(Last(s.messages).calls, reason, e.ids[..|Last(s.messages).calls|]);
    assert (s.messages + answers)[|s.messages|..] == answers;
  }

  lemma RefusalsIn(h: seq<Message>, calls: seq<Call>, reason: string, ids: seq<string>, last: Message)
    requires |ids| == |calls| + 1
    ensures var all, n := h + (Cancellations(calls, reason, ids[..|calls|]) + [last]), |h| + |calls|;
            |all| == n + 1 && h <= all && all[n] == last && AllRefused(all[|h|..n], calls, ids, reason)
  {
    var answers := Cancellations(calls, reason, ids[..|calls|]);
    assert (h + (answers + [last]))[|h|..|h| + |calls|] == answers;
  }

  lemma ResponseAnswers(s: State, e: Event)
    requires Possible(s, e) && e.Answer? && AwaitsAnswers(s.messages) && Decide(e.response) == Respond
    ensures var h, calls, t := s.messages, Last(s.messages).calls, Step(s, e);
            var n := |h| + |calls|;
            && t.node == CallModel && h <= t.messages && |t.messages| == n + 1
            && AllRefused(t.messages[|h|..n], calls, e.ids, "was interrupted for human input")
            && t.messages[n] == Human(e.ids[|calls|], e.text)
  {
    var calls := Last(s.messages).calls;
    AwaitingFinds(s.messages);
    RespondCloses(s.messages, e.text, e.ids);
    RefusalsIn(s.messages, calls, "was interrupted for human input", e.ids, Human(e.ids[|calls|], e.text));
  }

  lemma EditAnswers(s: State, e: Event)
    requires Possible(s, e) && e.Answer? && AwaitsAnswers(s.messages) && Accepted(Last(s.messages).calls)
    requires SaysEdit(e.response)
    ensures var h, calls, t := s.messages, Last(s.messages).calls, Step(s, e);
            if forall i :: 0 <= i < |calls| ==> Usable(EditsIn(e.response), calls[i].name)
            then t.node == Tools && |t.messages| == |h| && t.messages[..|h| - 1] == h[..|h| - 1]
                 && Approved(Last(t.messages), Last(h), e.response)
            else t == s
  {
    var edits := EditsIn(e.response);
    EditStep(s, e, edits);
    EditUsable(Last(s.messages).calls, edits);
    if UpdatedCalls(Last(s.messages).calls, edits).Some? {
      EditIsApproved(Last(s.messages), e.response);
    }
  }

  /** What the operator's answer does while it is awaited, whatever it is. */
  lemma AnswerCases(s: State, e: Event)
    requires Possible(s, e) && e.Answer? && AwaitsAnswers(s.messages) && Accepted(Last(s.messages).calls)
    ensures var h, r, t := s.messages, e.response, Step(s, e);
            var calls := Last(h).calls;
            if !(r.Arr? && r.items != []) then t == State(End, h)
            else if !r.items[0].Obj? then t == s
            else if Says(r, "accept") then t == State(Tools, h)
            else if Says(r, "response") then
              var n := |h| + |calls|;
              && t.node == CallModel && h <= t.messages && |t.messages| == n + 1
              && AllRefused(t.messages[|h|..n], calls, e.ids, "was interrupted for human input")
              && t.messages[n] == Human(e.ids[|calls|], e.text)
            else if SaysEdit(r) then
              if forall i :: 0 <= i < |calls| ==> Usable(EditsIn(r), calls[i].name)
              then t.node == Tools && |t.messages| == |h| && t.messages[..|h| - 1] == h[..|h| - 1]
                   && Approved(Last(t.messages), Last(h), r)
              else t == s
            else
              t.node == End && h <= t.messages
              && AllRefused(t.messages[|h|..], calls, e.ids,
                            if Says(r, "ignore") then "cancelled by human operator" else "invalid format")
  {
    AwaitingFinds(s.messages);
    DecidesOn(e.response);
    match Decide(e.response) {
      case Respond => ResponseAnswers(s, e);
      case Edit(_) => EditAnswers(s, e);
      case Cancel(reason) => RefusalEnds(s, e, reason);
      case _ =>
    }
  }

  const SEARCH := AI("m", "", [Call("c", "search", EMPTY_OBJECT)])

  /** The string "[1]", which parses to a list. */
  const LIST_TEXT := Str("[1]", Some(Arr([Num(1.0)])))

  /** The operator's answer that edits the arguments of `search` to a value. */
  function EditSearch(value: Json): Json {
    Arr([Obj(map["type" := Str("edit", None), "args" := Obj(map["args" := Obj(map["search" := value])])])])
  }

  /** An edit that raises, although the approval step takes it for an edit: its arguments parse to a list. */
  lemma EditToListRaises(text: string, ids: seq<string>)
    requires |ids| == 2
    ensures !ParseArgs(LIST_TEXT).Obj? && SaysEdit(EditSearch(LIST_TEXT))
    ensures LatestToolMessage([SEARCH]) == Some(SEARCH)
    ensures Approve([SEARCH], EditSearch(LIST_TEXT), text, ids) == Raised
  {
    assert [SEARCH][..0] == [];
    assert AwaitsAnswers([SEARCH]);
    EditGoesThroughIff([SEARCH], EditSearch(LIST_TEXT), text, ids);
    assert !Usable(EditsIn(EditSearch(LIST_TEXT)), SEARCH.calls[0].name);
  }
}
