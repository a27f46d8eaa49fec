/** The bounded model/tool/model loop over one provider session, with the events it emits. */
module AgentLoop {
  import opened Text
  import opened CodexSession
  import Usage
  import opened Wrappers

  datatype Event =
    | AgentStart
    | TurnStart(step: nat)
    | MessageStart(step: nat)
    | MessageUpdate(step: nat)
    | ReasoningStart(step: nat)
    | ReasoningUpdate(step: nat)
    | ReasoningEnd(step: nat)
    | MessageEnd(step: nat, text: string, usage: Usage.Usage)
    | ToolStart(step: nat, id: string)
    | ToolEnd(step: nat, id: string)
    | TurnEnd(step: nat)
    | AgentEnd(step: nat, text: string)

  /** The grammar of a run's events, as an automaton. `text` is the text of the latest message. */
  datatype Trace =
    | Fresh
    | Between(steps: nat, text: string)
    | InTurn(step: nat)
    | InMessage(step: nat, reasoning: bool)
    | AfterMessage(step: nat, text: string)
    | InTool(step: nat, text: string, id: string)
    | Ended
    | Broken

  function Next(t: Trace, e: Event): Trace {
    match (t, e)
    case (Fresh, AgentStart) => Between(0, "")
    case (Between(n, _), TurnStart(m)) => if m == n + 1 then InTurn(m) else Broken
    case (InTurn(n), MessageStart(m)) => if m == n then InMessage(n, false) else Broken
    case (InMessage(n, _), MessageUpdate(m)) => if m == n then t else Broken
    case (InMessage(n, started), ReasoningStart(m)) => if m == n && !started then InMessage(n, true) else Broken
    case (InMessage(n, started), ReasoningUpdate(m)) => if m == n && started then t else Broken
    case (InMessage(n, started), ReasoningEnd(m)) => if m == n && started then t else Broken
    case (InMessage(n, _), MessageEnd(m, text, _)) => if m == n then AfterMessage(n, text) else Broken
    case (AfterMessage(n, text), ToolStart(m, id)) => if m == n then InTool(n, text, id) else Broken
    case (InTool(n, text, id), ToolEnd(m, id')) => if m == n && id' == id then AfterMessage(n, text) else Broken
    case (AfterMessage(n, text), TurnEnd(m)) => if m == n then Between(n, text) else Broken
    case (Between(n, text), AgentEnd(m, text')) => if m == n && n != 0 && text' == text then Ended else Broken
    case _ => Broken
  }

  function TraceOf(events: seq<Event>): Trace {
    if events == [] then Fresh else Next(TraceOf(events[..|events| - 1]), events[|events| - 1])
  }

  function UsagesOf(events: seq<Event>): seq<Usage.Usage> {
    if events == [] then []
    else
      var last := events[|events| - 1];
      UsagesOf(events[..|events| - 1]) + if last.MessageEnd? then [last.usage] else []
  }

  /** Where a sequence of events has led, with the usage reported on the way. */
  datatype Reached = Reached(trace: Trace, reports: seq<Usage.Usage>)

  function Advance(r: Reached, e: Event): Reached {
    Reached(Next(r.trace, e), if e.MessageEnd? then r.reports + [e.usage] else r.reports)
  }

  lemma {:induction false} PathMeansEvents(events: seq<Event>, states: seq<Reached>)
    requires |states| == |events| + 1 && states[0] == Reached(Fresh, [])
    requires forall i :: 0 <= i < |events| ==> states[i + 1] == Advance(states[i], events[i])
    ensures states[|events|] == Reached(TraceOf(events), UsagesOf(events))
  {
    if events != [] {
      PathMeansEvents(events[..|events| - 1], states[..|events|]);
    }
  }

  /** A well-formed history of events never leaves the grammar, whatever it is cut down to. */
  lemma {:induction false} PrefixesStayInGrammar(events: seq<Event>, k: nat)
    requires TraceOf(events) != Broken && k <= |events|
    ensures TraceOf(events[..k]) != Broken
    decreases |events|
  {
    if k == |events| {
      assert events[..k] == events;
    } else {
      PrefixesStayInGrammar(events[..|events| - 1], k);
      assert events[..|events| - 1][..k] == events[..k];
    }
  }

  /** How many kinds of event are still missing at least. */
  function Missing(t: Trace): nat {
    match t
    case Fresh => 7
    case Between(n, _) => if n == 0 then 6 else 1
    case InTurn(_) => 5
    case InMessage(_, _) => 4
    case InTool(_, _, _) => 3
    case AfterMessage(_, _) => 2
    case _ => 0
  }

  /** An event that leads on towards the end of the run. */
  function Onward(t: Trace): Event
    requires t != Ended && t != Broken
  {
    match t
    case Fresh => AgentStart
    case Between(n, text) => if n == 0 then TurnStart(1) else AgentEnd(n, text)
    case InTurn(n) => MessageStart(n)
    case InMessage(n, _) => MessageEnd(n, "", Usage.ZERO)
    case InTool(n, _, id) => ToolEnd(n, id)
    case AfterMessage(n, _) => TurnEnd(n)
  }

  lemma OnwardLeadsOn(t: Trace)
    requires t != Ended && t != Broken && (t.AfterMessage? ==> t.step != 0)
    ensures Next(t, Onward(t)) != Broken && Missing(Next(t, Onward(t))) < Missing(t)
  {
  }

  /** Turns are numbered from one. */
  predicate Counted(t: Trace) {
    match t
    case InTurn(n) => n != 0
    case InMessage(n, _) => n != 0
    case AfterMessage(n, _) => n != 0
    case InTool(n, _, _) => n != 0
    case _ => true
  }

  lemma {:induction false} TracesAreCounted(events: seq<Event>)
    ensures Counted(TraceOf(events))
  {
    if events != [] {
      TracesAreCounted(events[..|events| - 1]);
    }
  }

  /** Every trace in the grammar can be gone on with to a complete one. */
  lemma {:induction false} TraceCompletes(events: seq<Event>) returns (full: seq<Event>)
    requires TraceOf(events) != Broken
    ensures events <= full && TraceOf(full) == Ended
    decreases Missing(TraceOf(events))
  {
    if TraceOf(events) == Ended {
      return events;
    }
    var more := events + [Onward(TraceOf(events))];
    assert more[..|events|] == events;
    TracesAreCounted(events);
    OnwardLeadsOn(TraceOf(events));
    full := TraceCompletes(more);
  }

  /** Whatever a run's trace is cut down to, it is a prefix of a complete trace. */
  lemma CutTraceIsPrefixOfComplete(events: seq<Event>, k: nat)
    requires TraceOf(events) != Broken && k <= |events|
    ensures exists full :: events[..k] <= full && TraceOf(full) == Ended
  {
    PrefixesStayInGrammar(events, k);
    var full := TraceCompletes(events[..k]);
  }

  /** The events of one turn's tools. */
  function ToolEvents(step: nat, calls: seq<ToolCall>): seq<Event> {
    if calls == [] then []
    else
      var id := calls[|calls| - 1].id;
      ToolEvents(step, calls[..|calls| - 1]) + [ToolStart(step, id), ToolEnd(step, id)]
  }

  /** What a before-tool hook decides; it may rewrite the name and the arguments. */
  datatype Gate = Allow(name: string, arguments: string) | Veto(message: string)

  datatype Execution = Execution(output: string, failure: Option<string>)

  /** Everything the loop cannot decide itself, indexed by step and position. */
  datatype Env = Env(
    cancelled: nat -> bool,
    beforePrompt: (nat, nat, string) -> Option<string>,
    respond: nat -> Response,
    afterModel: nat -> bool,
    beforeTool: (nat, nat) -> Gate,
    execute: (nat, nat, string, string) -> Execution,
    afterTool: (nat, nat, string, bool) -> (string, bool),
    steering: nat -> seq<string>)

  datatype Reason = EmptyPrompt | HookError | Cancelled | StepError | ExceededSteps

  datatype Outcome = Ok(text: string, usage: Usage.Usage) | Err(reason: Reason)

  /** The items and the usage of a response, none if it failed. */
  function ItemsOf(r: Response): seq<RawItem> {
    if r.Completed? then r.items else []
  }

  /** The usage that the model reported in the first `n` steps. */
  function UsagesAt(env: Env, n: nat): seq<Usage.Usage> {
    if n == 0 then []
    else
      var last := env.respond(n);
      UsagesAt(env, n - 1) + [if last.Completed? then last.usage else Usage.ZERO]
  }

  function CallsAt(env: Env, step: nat): seq<ToolCall> {
    ToolCalls(ItemsOf(env.respond(step)))
  }

  /** What the first `n` steps of a run store when they complete. */
  function Stored(env: Env, requests: seq<Request>, n: nat): seq<Item>
    requires n <= |requests|
  {
    if n == 0 then []
    else Stored(env, requests, n - 1) + (Additions(requests[n - 1]) + HistoryItems(ItemsOf(env.respond(n))))
  }

  /** What a call comes to: its id, and what the hooks, the tools and the after-tool hooks make of it. */
  ghost predicate Produced(env: Env, tools: set<string>, step: nat, i: nat, call: ToolCall, result: ToolResult) {
    var gate := env.beforeTool(step, i);
    && result.callId == call.id
    && (gate.Veto? ==> (result.output, result.isError) == env.afterTool(step, i, gate.message, true))
    && (gate.Allow? && gate.name !in tools ==>
          (result.output, result.isError) == env.afterTool(step, i, "unknown or disabled tool: " + gate.name, true))
    && (gate.Allow? && gate.name in tools ==>
          var run := env.execute(step, i, gate.name, gate.arguments);
          && (run.failure.None? ==> (result.output, result.isError) == env.afterTool(step, i, run.output, false))
          && (run.failure.Some? && run.output == "" ==>
                (result.output, result.isError) == env.afterTool(step, i, run.failure.value, true))
          && (run.failure.Some? && run.output != "" ==>
                (result.output, result.isError) == env.afterTool(step, i, run.output + "\n" + run.failure.value, true)))
  }

  /** An output as the session stores it: failed ones are marked. */
  function Marked(result: (string, bool)): string {
    (if result.1 then "Tool error: " else "") + result.0
  }

  /** The stored output of call `i` of a step is what its tool produced. */
  ghost predicate OutputIsProduced(env: Env, tools: set<string>, step: nat, i: nat, item: Item)
    requires i < |CallsAt(env, step)|
  {
    var gate := env.beforeTool(step, i);
    && item.CallOutput? && item.callId == CallsAt(env, step)[i].id
    && (gate.Veto? ==> item.output == Marked(env.afterTool(step, i, gate.message, true)))
    && (gate.Allow? && gate.name !in tools ==>
          item.output == Marked(env.afterTool(step, i, "unknown or disabled tool: " + gate.name, true)))
    && (gate.Allow? && gate.name in tools ==>
          var run := env.execute(step, i, gate.name, gate.arguments);
          && (run.failure.None? ==> item.output == Marked(env.afterTool(step, i, run.output, false)))
          && (run.failure.Some? && run.output == "" ==>
                item.output == Marked(env.afterTool(step, i, run.failure.value, true)))
          && (run.failure.Some? && run.output != "" ==>
                item.output == Marked(env.afterTool(step, i, run.output + "\n" + run.failure.value, true))))
  }

  ghost predicate OutputsOfStep(env: Env, tools: set<string>, step: nat, outputs: seq<Item>) {
    |outputs| == |CallsAt(env, step)| &&
    forall i :: 0 <= i < |outputs| ==> OutputIsProduced(env, tools, step, i, outputs[i])
  }

  /** Where the outputs of step `k` are stored: behind what the first `k` steps stored, in call order. */
  ghost predicate OutputsAt(env: Env, tools: set<string>, requests: seq<Request>, k: nat, h: seq<Item>, start: nat)
    requires k <= |requests|
  {
    var from := start + |Stored(env, requests, k)|;
    from + |CallsAt(env, k)| <= |h| && OutputsOfStep(env, tools, k, h[from..from + |CallsAt(env, k)|])
  }

  ghost predicate OutputsAreProduced(env: Env, tools: set<string>, requests: seq<Request>, done: nat,
                                     h: seq<Item>, start: nat)
  {
    forall k :: 0 < k < done <= |requests| ==> OutputsAt(env, tools, requests, k, h, start)
  }

  ghost predicate AllProduced(env: Env, tools: set<string>, step: nat, calls: seq<ToolCall>, results: seq<ToolResult>) {
    |results| == |calls| && forall i :: 0 <= i < |calls| ==> Produced(env, tools, step, i, calls[i], results[i])
  }

  /** The queued messages of a step, each as the before-prompt hooks leave it. */
  ghost predicate Prepared(env: Env, step: nat, messages: seq<string>) {
    && |messages| == |env.steering(step)|
    && forall i :: 0 <= i < |messages| ==> env.beforePrompt(step, i, env.steering(step)[i]) == Some(messages[i])
  }

  ghost predicate HookFails(env: Env, step: nat) {
    exists i :: 0 <= i < |env.steering(step)| && env.beforePrompt(step, i, env.steering(step)[i]).None?
  }

  /** A step that runs to its end, and the request that its calls and the queued messages lead to. */
  ghost predicate LeadsTo(env: Env, tools: set<string>, step: nat, next: Request) {
    && !env.cancelled(step) && env.respond(step).Completed? && env.afterModel(step)
    && AllProduced(env, tools, step, CallsAt(env, step), next.toolResults)
    && Prepared(env, step, next.userMessages) && next.images == []
  }

  ghost predicate AllLeadOn(env: Env, tools: set<string>, requests: seq<Request>) {
    forall k :: 0 < k < |requests| ==> LeadsTo(env, tools, k, requests[k])
  }

  /** The first request: the prompt as the before-prompt hooks leave it, unless that is blank, and the images. */
  ghost predicate Begins(env: Env, userPrompt: string, images: seq<Image>, first: Request) {
    var prompt := env.beforePrompt(0, 0, userPrompt);
    && first.images == images && first.toolResults == []
    && (Blank(userPrompt) ==> first.userMessages == [])
    && (!Blank(userPrompt) ==> prompt.Some? && first.userMessages == if Blank(prompt.value) then [] else [prompt.value])
  }

  /** Why the run ends in its step `step`. */
  ghost predicate Explains(env: Env, step: nat, request: Request, reason: Reason) {
    match reason
    case Cancelled => env.cancelled(step)
    case StepError =>
      && !env.cancelled(step)
      && (env.respond(step).Failed?
        || (request.userMessages == [] && request.images == [] && request.toolResults == []))
    case HookError =>
      !env.cancelled(step) && env.respond(step).Completed? && (!env.afterModel(step) || HookFails(env, step))
    case _ => false
  }

  /** Every request after the first carries a tool result or a user message, and no images. */
  predicate Progressing(requests: seq<Request>) {
    forall k :: 0 < k < |requests| ==> Progress(requests[k])
  }

  predicate Progress(r: Request) {
    r.images == [] && (r.toolResults != [] || r.userMessages != [])
  }

  // ---- What a stream of model events shows ----

  /** One update for every delta of text or reasoning, in order. */
  function Updates(step: nat, model: seq<ModelEvent>): seq<Event> {
    if model == [] then []
    else
      var last := model[|model| - 1];
      Updates(step, model[..|model| - 1])
      + if last.TextDelta? then [MessageUpdate(step)]
        else if last.ReasoningDelta? then [ReasoningUpdate(step)]
        else []
  }

  /** Events without the marks around the reasoning. */
  function Unmarked(events: seq<Event>): seq<Event> {
    if events == [] then []
    else
      var last := events[|events| - 1];
      Unmarked(events[..|events| - 1]) + if last.ReasoningStart? || last.ReasoningEnd? then [] else [last]
  }

  /** Some piece of reasoning came, if only a blank delta. */
  ghost predicate Reasons(model: seq<ModelEvent>) {
    exists i :: 0 <= i < |model| &&
      (model[i].ReasoningDelta? || (model[i].ReasoningDone? && !Blank(model[i].text)))
  }

  /** Some reasoning that is not blank came. */
  ghost predicate Spoken(model: seq<ModelEvent>) {
    exists i :: 0 <= i < |model| &&
      if model[i].ReasoningDelta? then !Blank(model[i].delta) else model[i].ReasoningDone? && !Blank(model[i].text)
  }

  /** The model ended its reasoning after some that is not blank. */
  ghost predicate ReasoningEnds(model: seq<ModelEvent>) {
    exists i :: 0 <= i < |model| && model[i].ReasoningDone? && Spoken(model[..i + 1])
  }

  lemma {:induction false} UnmarkedAdd(a: seq<Event>, b: seq<Event>)
    ensures Unmarked(a + b) == Unmarked(a) + Unmarked(b)
  {
    if b == [] {
      assert a + b == a;
    } else {
      assert (a + b)[..|a + b| - 1] == a + b[..|b| - 1];
      UnmarkedAdd(a, b[..|b| - 1]);
    }
  }

  lemma UpdatesOneMore(step: nat, model: seq<ModelEvent>, n: nat)
    requires n < |model|
    ensures Updates(step, model[..n + 1]) == Updates(step, model[..n]) + Updates(step, [model[n]])
  {
    assert model[..n + 1][..n] == model[..n] && [model[n]][..0] == [];
  }

  lemma BlankAdd(a: string, b: string)
    ensures Blank(a + b) <==> Blank(a) && Blank(b)
  {
    BlankMeansSpaces(a);
    BlankMeansSpaces(b);
    BlankMeansSpaces(a + b);
    hide *;
    var both := a + b;
    assert forall i :: 0 <= i < |a| ==> both[i] == a[i];
    assert forall i :: |a| <= i < |both| ==> both[i] == b[i - |a|];
    assert forall i :: 0 <= i < |b| ==> b[i] == both[|a| + i];
  }

  lemma SpokenReasons(model: seq<ModelEvent>)
    ensures Spoken(model) ==> Reasons(model)
  {
    hide Blank;
  }

  lemma MarksAreDropped(step: nat)
    ensures Unmarked([]) == Unmarked([ReasoningEnd(step)]) == Unmarked([ReasoningStart(step)]) == []
    ensures Unmarked([MessageUpdate(step)]) == [MessageUpdate(step)]
    ensures Unmarked([ReasoningUpdate(step)]) == [ReasoningUpdate(step)]
    ensures Unmarked([ReasoningStart(step), ReasoningUpdate(step)]) == [ReasoningUpdate(step)]
    ensures Unmarked([ReasoningStart(step), ReasoningEnd(step)]) == []
  {
    assert [ReasoningStart(step)] + [ReasoningUpdate(step)] == [ReasoningStart(step), ReasoningUpdate(step)];
    assert [ReasoningStart(step)] + [ReasoningEnd(step)] == [ReasoningStart(step), ReasoningEnd(step)];
    UnmarkedAdd([ReasoningStart(step)], [ReasoningUpdate(step)]);
    UnmarkedAdd([ReasoningStart(step)], [ReasoningEnd(step)]);
  }

  lemma OneUpdate(step: nat, event: ModelEvent)
    ensures Updates(step, [event]) ==
            match event
            case TextDelta => [MessageUpdate(step)]
            case ReasoningDelta(_) => [ReasoningUpdate(step)]
            case _ => []
  {
    assert [event][..0] == [];
  }

  lemma NothingStreamed(step: nat)
    ensures Unmarked([]) == Updates(step, []) == [] && Blank("")
    ensures !Reasons([]) && !Spoken([]) && !ReasoningEnds([])
  {
  }

  /** What one more model event changes. */
  lemma OneMoreStreamed(model: seq<ModelEvent>, n: nat, reasoning: string)
    requires n < |model|
    ensures
      var event := model[n];
      && (Reasons(model[..n + 1]) <==>
          Reasons(model[..n]) || event.ReasoningDelta? || (event.ReasoningDone? && !Blank(event.text)))
      && (Spoken(model[..n + 1]) <==>
          Spoken(model[..n])
          || if event.ReasoningDelta? then !Blank(event.delta) else event.ReasoningDone? && !Blank(event.text))
      && (ReasoningEnds(model[..n + 1]) <==>
          ReasoningEnds(model[..n]) || (event.ReasoningDone? && Spoken(model[..n + 1])))
      && (event.ReasoningDelta? ==> (Blank(reasoning + event.delta) <==> Blank(reasoning) && Blank(event.delta)))
  {
    hide Blank;
    if model[n].ReasoningDelta? {
      BlankAdd(reasoning, model[n].delta);
    }
    assert forall i :: 0 <= i < n ==> model[..n + 1][i] == model[..n][i];
    hide Spoken;
    assert forall k :: 0 < k <= n ==> model[..n + 1][..k] == model[..n][..k];
    assert model[..n + 1][..n + 1] == model[..n + 1];
  }

  /** How a turn ends: the run fails, is finished, or goes on with a request. */
  datatype Turned = Failure(reason: Reason) | Finished(text: string) | GoOn(request: Request)

  class Loop {
    const session: Session
    const maxSteps: nat
    const tools: set<string>
    var events: seq<Event>
    ghost var states: seq<Reached>

    /** `states` records where every prefix of the emitted events leads. */
    ghost predicate Valid()
      reads this
    {
      && |states| == |events| + 1 && states[0] == Reached(Fresh, [])
      && forall i :: 0 <= i < |events| ==> states[i + 1] == Advance(states[i], events[i])
    }

    ghost function Trace(): Trace
      reads this
      requires Valid()
    {
      states[|events|].trace
    }

    ghost function Reports(): seq<Usage.Usage>
      reads this
      requires Valid()
    {
      states[|events|].reports
    }

    /** The recorded states are the grammar's reading of the emitted events. */
    lemma StatesFollowEvents()
      requires Valid()
      ensures Trace() == TraceOf(events) && Reports() == UsagesOf(events)
    {
      PathMeansEvents(events, states);
    }

    constructor (session: Session, maxSteps: int, tools: set<string>)
      ensures this.session == session && this.tools == tools && events == [] && Valid()
      ensures this.maxSteps == if maxSteps <= 0 then 32 else maxSteps
    {
      this.session := session;
      this.maxSteps := if maxSteps <= 0 then 32 else maxSteps;
      this.tools := tools;
      events, states := [], [Reached(Fresh, [])];
    }

    method Emit(e: Event)
      requires Valid()
      modifies this
      ensures Valid() && events == old(events) + [e]
      ensures Trace() == Next(old(Trace()), e)
      ensures Reports() == if e.MessageEnd? then old(Reports()) + [e.usage] else old(Reports())
    {
      events, states := events + [e], states + [Advance(states[|events|], e)];
    }

    /** The `OnEvent` callback for one event, with what it emits. */
    method StreamOne(step: nat, event: ModelEvent, wasStarted: bool, wasEnded: bool, before: string)
      returns (started: bool, ended: bool, reasoning: string, ghost emitted: seq<Event>)
      requires Valid() && Trace() == InMessage(step, wasStarted) && (!wasStarted ==> before == "")
      modifies this
      ensures Valid() && Trace() == InMessage(step, started) && Reports() == old(Reports())
      ensures events == old(events) + emitted && Unmarked(emitted) == Updates(step, [event])
      ensures reasoning == if event.ReasoningDelta? then before + event.delta
                           else if event.ReasoningDone? && !Blank(event.text) then event.text else before
      ensures started == (wasStarted || event.ReasoningDelta? || (event.ReasoningDone? && !Blank(event.text)))
      ensures ended == (wasEnded || (event.ReasoningDone? && !Blank(reasoning)))
      ensures ReasoningEnd(step) in emitted <==> event.ReasoningDone? && !Blank(reasoning)
      ensures ReasoningStart(step) in emitted <==> started && !wasStarted
    {
      hide Unmarked, Updates, Blank;
      MarksAreDropped(step);
      NothingStreamed(step);
      OneUpdate(step, event);
      started, ended, reasoning, emitted := wasStarted, wasEnded, before, [];
      match event
      case TextDelta =>
        Emit(MessageUpdate(step));
        emitted := [MessageUpdate(step)];
      case ReasoningDelta(delta) =>
        if !started {
          started := true;
          Emit(ReasoningStart(step));
        }
        reasoning := reasoning + delta;
        Emit(ReasoningUpdate(step));
        emitted := if wasStarted then [ReasoningUpdate(step)] else [ReasoningStart(step), ReasoningUpdate(step)];
      case ReasoningDone(text) =>
        if !Blank(text) {
          reasoning := text;
        }
        if !Blank(reasoning) {
          if !started {
            started := true;
            Emit(ReasoningStart(step));
          }
          ended := true;
          Emit(ReasoningEnd(step));
          emitted := if wasStarted then [ReasoningEnd(step)] else [ReasoningStart(step), ReasoningEnd(step)];
        }
      case ItemDone =>
    }

    /**
     The events of one step's stream: an update for every text and reasoning delta, in order, around which the
     reasoning starts with its first piece and ends wherever the model says so and some of it is not blank.
     */
    method Stream(step: nat, model: seq<ModelEvent>)
      returns (started: bool, ended: bool, reasoning: string, ghost emitted: seq<Event>)
      requires Valid() && Trace() == InMessage(step, false)
      modifies this
      ensures Valid() && Trace() == InMessage(step, started) && Reports() == old(Reports())
      ensures events == old(events) + emitted && Unmarked(emitted) == Updates(step, model)
      ensures started <==> Reasons(model)
      ensures !Blank(reasoning) <==> Spoken(model)
      ensures ended <==> ReasoningEnds(model)
      ensures (ReasoningStart(step) in emitted <==> started) && (ReasoningEnd(step) in emitted <==> ended)
    {
      hide *;
      started, ended, reasoning, emitted := false, false, "", [];
      NothingStreamed(step);
      assert model[..0] == [];
      for i := 0 to |model|
        invariant Valid() && Trace() == InMessage(step, started) && Reports() == old(Reports())
        invariant events == old(events) + emitted && Unmarked(emitted) == Updates(step, model[..i])
        invariant (started <==> Reasons(model[..i])) && (!started ==> reasoning == "")
        invariant (!Blank(reasoning) <==> Spoken(model[..i])) && (ended <==> ReasoningEnds(model[..i]))
        invariant (ReasoningStart(step) in emitted <==> started) && (ReasoningEnd(step) in emitted <==> ended)
      {
        OneMoreStreamed(model, i, reasoning);
        UpdatesOneMore(step, model, i);
        ghost var earlier := emitted;
        ghost var added;
        started, ended, reasoning, added := StreamOne(step, model[i], started, ended, reasoning);
        emitted := emitted + added;
        UnmarkedAdd(earlier, added);
      }
      assert model[..|model|] == model;
    }

    /** The result of one call: a veto, an unknown tool, or what the tool and the after-tool hooks say. */
    method RunTool(env: Env, step: nat, i: nat, call: ToolCall) returns (result: ToolResult)
      ensures result.callId == call.id
      ensures
        var gate := env.beforeTool(step, i);
        && (gate.Veto? ==> (result.output, result.isError) == env.afterTool(step, i, gate.message, true))
        && (gate.Allow? && gate.name !in tools ==>
              (result.output, result.isError) == env.afterTool(step, i, "unknown or disabled tool: " + gate.name, true))
        && (gate.Allow? && gate.name in tools ==>
              var run := env.execute(step, i, gate.name, gate.arguments);
              && (run.failure.None? ==> (result.output, result.isError) == env.afterTool(step, i, run.output, false))
              && (run.failure.Some? && run.output == "" ==>
                    (result.output, result.isError) == env.afterTool(step, i, run.failure.value, true))
              && (run.failure.Some? && run.output != "" ==>
                    (result.output, result.isError) ==
                    env.afterTool(step, i, run.output + "\n" + run.failure.value, true)))
    {
      result := ToolResult(call.id, "", false);
      var name, arguments := call.name, call.arguments;
      match env.beforeTool(step, i) {
        case Allow(newName, newArguments) => name, arguments := newName, newArguments;
        case Veto(message) => result := result.(isError := true, output := message);
      }
      if result.isError {
        // A hook vetoed this call.
      } else if name !in tools {
        result := result.(isError := true, output := "unknown or disabled tool: " + name);
      } else {
        var run := env.execute(step, i, name, arguments);
        result := result.(output := run.output);
        if run.failure.Some? {
          result := result.(isError := true);
          if result.output != "" {
            result := result.(output := result.output + "\n");
          }
          result := result.(output := result.output + run.failure.value);
          assert run.output == "" ==> result.output == run.failure.value;
        }
      }
      var (output, isError) := env.afterTool(step, i, result.output, result.isError);
      result := result.(output := output, isError := isError);
    }

    /** A call between its two events. */
    method RunReported(env: Env, step: nat, i: nat, call: ToolCall, ghost text: string) returns (result: ToolResult)
      requires Valid() && Trace() == AfterMessage(step, text)
      modifies this
      ensures Valid() && Trace() == AfterMessage(step, text) && Reports() == old(Reports())
      ensures events == old(events) + [ToolStart(step, call.id), ToolEnd(step, call.id)]
      ensures result.callId == call.id && Produced(env, tools, step, i, call, result)
    {
      hide Valid, Advance;
      Emit(ToolStart(step, call.id));
      result := RunTool(env, step, i, call);
      Emit(ToolEnd(step, call.id));
      assert [ToolStart(step, call.id)] + [ToolEnd(step, call.id)] ==
        [ToolStart(step, call.id), ToolEnd(step, call.id)];
    }

    /** Runs the calls of one step: each gets one start, one end and one result, in call order. */
    method RunTools(env: Env, step: nat, calls: seq<ToolCall>, ghost text: string) returns (results: seq<ToolResult>)
      requires Valid() && Trace() == AfterMessage(step, text)
      modifies this
      ensures Valid() && Trace() == AfterMessage(step, text) && Reports() == old(Reports())
      ensures events == old(events) + ToolEvents(step, calls)
      ensures Ids(results) == IdsOfCalls(calls) && AllProduced(env, tools, step, calls, results)
    {
      hide Valid, Advance, Produced, Trace, Reports;
      results := [];
      for i := 0 to |calls|
        invariant Valid() && Trace() == AfterMessage(step, text) && Reports() == old(Reports())
        invariant events == old(events) + ToolEvents(step, calls[..i])
        invariant |results| == i && forall k :: 0 <= k < i ==> results[k].callId == calls[k].id
        invariant forall k :: 0 <= k < i ==> Produced(env, tools, step, k, calls[k], results[k])
      {
        assert calls[..i + 1][..i] == calls[..i];
        var result := RunReported(env, step, i, calls[i], text);
        results := results + [result];
      }
      assert calls[..|calls|] == calls;
    }

    method Steering(env: Env, step: nat) returns (messages: Option<seq<string>>)
      ensures messages.Some? ==> Prepared(env, step, messages.value)
      ensures messages.None? ==> HookFails(env, step)
    {
      var taken := env.steering(step);
      var prepared := [];
      for i := 0 to |taken|
        invariant |prepared| == i
        invariant forall j :: 0 <= j < i ==> env.beforePrompt(step, j, taken[j]) == Some(prepared[j])
      {
        var message := env.beforePrompt(step, i, taken[i]);
        if message.None? {
          return None;
        }
        prepared := prepared + [message.value];
      }
      return Some(prepared);
    }

    /** A completed step ends reasoning that is not blank and that the model did not end. */
    method StreamAll(step: nat, model: seq<ModelEvent>, completed: bool) returns (ghost emitted: seq<Event>)
      requires Valid() && Trace() == InMessage(step, false)
      modifies this
      ensures events == old(events) + emitted && Unmarked(emitted) == Updates(step, model)
      ensures ReasoningStart(step) in emitted <==> Reasons(model)
      ensures ReasoningEnd(step) in emitted <==> ReasoningEnds(model) || (completed && Spoken(model))
      ensures Valid() && Trace().InMessage? && Trace().step == step && Reports() == old(Reports())
    {
      hide Reasons, Spoken, ReasoningEnds, Updates, Unmarked, Blank;
      SpokenReasons(model);
      var started, ended, reasoning;
      started, ended, reasoning, emitted := Stream(step, model);
      if completed && started && !ended && !Blank(reasoning) {
        Emit(ReasoningEnd(step));
        UnmarkedAdd(emitted, [ReasoningEnd(step)]);
        MarksAreDropped(step);
        emitted := emitted + [ReasoningEnd(step)];
      }
    }

    /** What the session has stored since the run began, with the calls in it that still wait for an output. */
    ghost predicate Added(before: seq<Item>, waiting: seq<string>)
      reads session
    {
      before <= session.history && Waiting(session.history[|before|..], waiting)
    }

    /** One model step with its stream: a successful one leaves its own calls waiting, a failed one changes nothing. */
    method ModelStep(env: Env, step: nat, request: Request, ghost before: seq<Item>) returns (result: StepResult)
      requires Valid() && Trace().Between? && Trace().steps + 1 == step
      requires Added(before, Ids(request.toolResults))
      modifies this, session
      ensures Valid() && Reports() == old(Reports())
      ensures Trace().InMessage? && Trace().step == step
      ensures result.StepDone? ==> Added(before, IdsOfCalls(result.calls))
      ensures !result.StepDone? ==> session.history == old(session.history)
      ensures result.StepDone? ==>
                session.history ==
                  old(session.history) + (Additions(request) + HistoryItems(ItemsOf(env.respond(step))))
      ensures
        var response := env.respond(step);
        if response.Failed? || (request.userMessages == [] && request.images == [] && request.toolResults == [])
        then !result.StepDone?
        else result == StepDone(CallsAt(env, step), response.text, response.usage)
    {
      Emit(TurnStart(step));
      Emit(MessageStart(step));
      var response := env.respond(step);
      result := session.Step(request, response);
      if result.NoInput? {
        return;
      }
      if result.StepDone? {
        StepAdds(old(session.history), before, request, response.items);
        Regrouped(old(session.history), Additions(request), HistoryItems(response.items));
      }
      ghost var emitted := StreamAll(step, response.events, result.StepDone?);
    }

    /** The rest of a turn: the message event, the tools, then the steering messages (None when a hook fails). */
    method FinishTurn(env: Env, step: nat, result: StepResult)
      returns (toolResults: seq<ToolResult>, steering: Option<seq<string>>)
      requires Valid() && Trace().InMessage? && Trace().step == step && result.StepDone?
      modifies this
      ensures Valid() && Reports() == old(Reports()) + [result.usage]
      ensures Ids(toolResults) == IdsOfCalls(result.calls)
      ensures AllProduced(env, tools, step, result.calls, toolResults)
      ensures if steering.Some? then Prepared(env, step, steering.value) else HookFails(env, step)
      ensures Trace() == if steering.Some? then Between(step, result.text) else AfterMessage(step, result.text)
    {
      Emit(MessageEnd(step, result.text, result.usage));
      toolResults := RunTools(env, step, result.calls, result.text);
      steering := Steering(env, step);
      if steering.Some? {
        Emit(TurnEnd(step));
      }
    }

    /** The prompt as the first request carries it, after the before-prompt hooks. */
    method FirstMessages(env: Env, userPrompt: string) returns (messages: Option<seq<string>>)
      ensures Blank(userPrompt) ==> messages == Some([])
      ensures !Blank(userPrompt) ==>
                var prompt := env.beforePrompt(0, 0, userPrompt);
                && (messages.None? <==> prompt.None?)
                && (prompt.Some? && !Blank(prompt.value) ==> messages == Some([prompt.value]))
                && (prompt.Some? && Blank(prompt.value) ==> messages == Some([]))
    {
      var prompt := userPrompt;
      if !Blank(prompt) {
        var prepared := env.beforePrompt(0, 0, prompt);
        if prepared.None? {
          return None;
        }
        prompt := prepared.value;
      }
      return Some(if Blank(prompt) then [] else [prompt]);
    }

    /** A model step and the rest of its turn. `waiting` holds the ids of the stored calls without an output. */
    method Turn(env: Env, step: nat, request: Request, ghost before: seq<Item>)
      returns (reason: Option<Reason>, result: StepResult, toolResults: seq<ToolResult>, steering: seq<string>,
               ghost waiting: seq<string>, ghost stored: bool)
      requires Valid() && Trace().Between? && Trace().steps + 1 == step
      requires Added(before, Ids(request.toolResults))
      modifies this, session
      ensures Valid() && Trace() != Broken && Trace() != Ended
      ensures Added(before, waiting)
      ensures Extended(env, step, request, old(session.history), stored) && (reason.None? ==> stored)
      ensures reason.Some? ==> Explains(env, step, request, reason.value)
      ensures reason.None? ==>
                && result == StepDone(CallsAt(env, step), env.respond(step).text, env.respond(step).usage)
                && env.respond(step).Completed? && LeadsTo(env, tools, step, Request(steering, [], toolResults))
      ensures reason.None? ==>
                && result.StepDone? && Trace() == Between(step, result.text)
                && Reports() == old(Reports()) + [result.usage]
                && waiting == Ids(toolResults) && |toolResults| == |result.calls|
    {
      hide Waiting, AllProduced, Prepared, HookFails, ToolCalls, HistoryItems, Additions;
      toolResults, steering, waiting, stored := [], [], Ids(request.toolResults), false;
      result := NoInput;
      if env.cancelled(step) {
        return Some(Cancelled), result, toolResults, steering, waiting, stored;
      }
      result := ModelStep(env, step, request, before);
      if !result.StepDone? {
        return Some(StepError), result, toolResults, steering, waiting, stored;
      }
      waiting, stored := IdsOfCalls(result.calls), true;
      if !env.afterModel(step) {
        return Some(HookError), result, toolResults, steering, waiting, stored;
      }
      var queued;
      toolResults, queued := FinishTurn(env, step, result);
      if queued.None? {
        return Some(HookError), result, toolResults, steering, waiting, stored;
      }
      assert |Ids(toolResults)| == |result.calls|;
      return None, result, toolResults, queued.value, waiting, stored;
    }

    /** What one step does to the history: nothing, or it stores its request and the model's items. */
    ghost predicate Extended(env: Env, step: nat, request: Request, before: seq<Item>, stored: bool)
      reads session
    {
      && (!stored ==> session.history == before)
      && (stored ==>
            && session.history == before + (Additions(request) + HistoryItems(ItemsOf(env.respond(step))))
            && !env.cancelled(step) && env.respond(step).Completed?)
    }

    /** Between two turns: what was stored waits for the next request's results, and `usage` sums the reports. */
    ghost predicate Ready(before: seq<Item>, step: nat, request: Request, usage: Usage.Usage)
      reads this, session
    {
      && Valid() && Trace().Between? && Trace().steps == step
      && Added(before, Ids(request.toolResults))
      && usage == Usage.Fold(Usage.ZERO, Reports())
    }

    /** Where an iteration leaves the run. */
    ghost predicate Left(before: seq<Item>, step: nat, next: Turned, total: Usage.Usage, waiting: seq<string>)
      reads this, session
    {
      && Valid() && Added(before, waiting)
      && match next
         case Failure(reason) => Trace() != Broken && Trace() != Ended && reason != EmptyPrompt
         case GoOn(request) => Ready(before, step, request, total) && Progress(request)
           && waiting == Ids(request.toolResults)
         case Finished(text) =>
           && Trace() == Ended && waiting == [] && total == Usage.Fold(Usage.ZERO, Reports())
           && events != [] && events[|events| - 1] == AgentEnd(step, text)
    }

    /** How an iteration ends, told from what the model, the hooks and the tools did. */
    ghost predicate Ends(env: Env, step: nat, request: Request, next: Turned) {
      match next
      case Failure(reason) => Explains(env, step, request, reason)
      case GoOn(following) => LeadsTo(env, tools, step, following)
      case Finished(text) => LeadsTo(env, tools, step, Request([], [], [])) && text == env.respond(step).text
    }

    /** One iteration of the run. */
    method Iterate(env: Env, step: nat, request: Request, usage: Usage.Usage, ghost before: seq<Item>)
      returns (next: Turned, total: Usage.Usage, ghost waiting: seq<string>, ghost stored: bool)
      requires step >= 1 && Ready(before, step - 1, request, usage)
      modifies this, session
      ensures Left(before, step, next, total, waiting) && Ends(env, step, request, next)
      ensures Extended(env, step, request, old(session.history), stored) && (!next.Failure? ==> stored)
      ensures !next.Failure? ==> env.respond(step).Completed? && total == Usage.Add(usage, env.respond(step).usage)
    {
      hide Waiting, Usage.Fold, LeadsTo, Explains, Extended;
      var reason, result, toolResults, userMessages;
      reason, result, toolResults, userMessages, waiting, stored := Turn(env, step, request, before);
      if reason.Some? {
        ReasonIsNoEmptyPrompt(env, step, request, reason.value);
        return Failure(reason.value), usage, waiting, stored;
      }
      total := Usage.Accumulate(usage, result.usage);
      Usage.FoldOneMore(Usage.ZERO, old(Reports()), result.usage);
      next := Decide(step, result, toolResults, userMessages);
    }

    /** A turn without calls and messages ends the run, any other asks for the next one. */
    method Decide(step: nat, result: StepResult, toolResults: seq<ToolResult>, userMessages: seq<string>)
      returns (next: Turned)
      requires Valid() && result.StepDone? && step >= 1 && Trace() == Between(step, result.text)
      requires |toolResults| == |result.calls|
      modifies this
      ensures Valid() && Reports() == old(Reports())
      ensures next.Finished? ==>
                && toolResults == [] && Trace() == Ended && next.text == result.text
                && events != [] && events[|events| - 1] == AgentEnd(step, next.text)
      ensures next.GoOn? ==>
              Trace() == old(Trace()) && Progress(next.request)
                && next.request == Request(userMessages, [], toolResults)
      ensures !next.Failure? && (next.Finished? <==> result.calls == [] && userMessages == [])
    {
      if |result.calls| == 0 && |userMessages| == 0 {
        Emit(AgentEnd(step, result.text));
        return Finished(result.text);
      }
      return GoOn(Request(userMessages, [], toolResults));
    }

    /** The model/tool/model cycle, from the first request on. */
    method Cycle(env: Env, first: Request, ghost before: seq<Item>)
      returns (outcome: Outcome, requests: seq<Request>, ghost waiting: seq<string>, ghost done: nat)
      requires Ready(before, 0, first, Usage.ZERO) && first.toolResults == [] && session.history == before
      modifies this, session
      ensures Added(before, waiting) && (outcome.Ok? ==> waiting == [])
      ensures Went(env, before, requests, outcome, done) && (requests != [] ==> requests[0] == first)
      ensures requests == [] ==> maxSteps == 0
      ensures Valid() && Trace() != Broken && (Trace() == Ended <==> outcome.Ok?)
      ensures outcome.Ok? ==> events != [] && events[|events| - 1] == AgentEnd(|requests|, outcome.text)
      ensures outcome.Ok? ==> outcome.usage == Usage.Fold(Usage.ZERO, Reports())
      ensures |requests| <= maxSteps && Progressing(requests)
      ensures outcome != Err(EmptyPrompt)
    {
      hide Waiting, Usage.Fold, LeadsTo, Explains, Progress, AllLeadOn, Stored, Additions, HistoryItems, ItemsOf;
      requests, waiting, done := [], [], 0;
      var request, usage := first, Usage.ZERO;
      NothingStoredYet(env, tools, first);
      NothingUsedYet(env);
      for step := 1 to maxSteps + 1
        invariant Ready(before, step - 1, request, usage) && waiting == Ids(request.toolResults)
        invariant |requests| == step - 1 == done && Progressing(requests) && (step > 1 ==> Progress(request))
        invariant AllLeadOn(env, tools, requests + [request]) && (requests + [request])[0] == first
        invariant session.history == before + Stored(env, requests, done)
        invariant usage == Usage.Fold(Usage.ZERO, UsagesAt(env, done))
      {
        ghost var earlier := requests;
        requests := requests + [request];
        StoredEarlier(env, earlier, request, step - 1);
        StoredOneMore(env, requests, step);
        var next, total;
        ghost var stored;
        next, total, waiting, stored := Iterate(env, step, request, usage, before);
        done := if stored then step else step - 1;
        Regrouped(before, Stored(env, requests, step - 1),
          Additions(request) + HistoryItems(ItemsOf(env.respond(step))));
        assert session.history == before + Stored(env, requests, done);
        if !next.Failure? {
          UsagesOneMore(env, usage, step);
        }
        match next
        case Failure(reason) =>
          ReasonIsNoEmptyPrompt(env, step, request, reason);
          return Err(reason), requests, waiting, done;
        case Finished(text) => return Ok(text, total), requests, waiting, done;
        case GoOn(following) =>
          OneMoreLeadsOn(env, tools, requests, following);
          request, usage := following, total;
      }
      FewerLeadOn(env, tools, requests, request);
      return Err(ExceededSteps), requests, waiting, done;
    }

    /** The whole run, told from outside: its requests, what is stored, and why it ends. */
    ghost predicate Went(env: Env, before: seq<Item>, requests: seq<Request>, outcome: Outcome, done: nat)
      reads session
    {
      && AllLeadOn(env, tools, requests)
      && |requests| - 1 <= done <= |requests| && session.history == before + Stored(env, requests, done)
      && match outcome
         case Ok(text, usage) =>
           && usage == Usage.Fold(Usage.ZERO, UsagesAt(env, done))
           && requests != [] && done == |requests| && LeadsTo(env, tools, |requests|, Request([], [], []))
           && text == env.respond(|requests|).text
         case Err(ExceededSteps) => |requests| == maxSteps && done == |requests|
         case Err(reason) => requests != [] && Explains(env, |requests|, requests[|requests| - 1], reason)
    }

    /**
     One run. `waiting` holds the ids of the calls of the last successful step that got no output: exactly what
     the run leaves open, whichever way it ends. If every named call had its output before, every one has it
     afterwards exactly when nothing waits and no named call was lost because it does not decode.
     */
    method RunWithImages(env: Env, userPrompt: string, images: seq<Image>)
      returns (outcome: Outcome, requests: seq<Request>, ghost waiting: seq<string>, ghost done: nat)
      requires Valid() && events == []
      modifies this, session
      ensures Added(old(session.history), waiting) && (outcome.Ok? ==> waiting == [])
      ensures AllNamedAnswered(old(session.history)) ==>
                (AllNamedAnswered(session.history) <==>
                 waiting == [] && NoneLost(session.history[|old(session.history)|..]))
      ensures Valid() && TraceOf(events) != Broken && (TraceOf(events) == Ended <==> outcome.Ok?)
      ensures outcome.Ok? ==> events != [] && events[|events| - 1] == AgentEnd(|requests|, outcome.text)
      ensures outcome.Ok? ==> outcome.usage == Usage.Fold(Usage.ZERO, UsagesOf(events))
      ensures |requests| <= maxSteps && Progressing(requests)
      ensures outcome == Err(EmptyPrompt) <==> Blank(userPrompt) && images == []
      ensures if requests == [] then session.history == old(session.history) && NeverBegan(env, userPrompt, outcome)
              else (Went(env, old(session.history), requests, outcome, done)
                    && Begins(env, userPrompt, images, requests[0]))
      ensures OutputsAreProduced(env, tools, requests, done, session.history, |old(session.history)|)
    {
      hide Waiting, Usage.Fold, LeadsTo, Explains, Progress, AllLeadOn, AllNamedAnswered, NoneLost, TraceOf, UsagesOf,
           OutputsAreProduced, Stored, Begins;
      ghost var before := session.history;
      NothingAdded(before);
      outcome, requests, waiting, done := RunFrom(env, userPrompt, images, before);
      StatesFollowEvents();
      AnsweredByRunIff(before, session.history, waiting);
      if requests == [] {
        NoOutputs(env, tools, session.history, |before|, done);
      } else {
        AllOutputsAreProduced(env, tools, requests, done, before);
      }
    }

    /** A run without requests. */
    ghost predicate NeverBegan(env: Env, userPrompt: string, outcome: Outcome) {
      match outcome
      case Err(EmptyPrompt) => true
      case Err(HookError) => !Blank(userPrompt) && env.beforePrompt(0, 0, userPrompt).None?
      case Err(ExceededSteps) => maxSteps == 0
      case _ => false
    }

    method RunFrom(env: Env, userPrompt: string, images: seq<Image>, ghost before: seq<Item>)
      returns (outcome: Outcome, requests: seq<Request>, ghost waiting: seq<string>, ghost done: nat)
      requires Valid() && events == [] && Added(before, []) && session.history == before
      modifies this, session
      ensures Added(before, waiting) && (outcome.Ok? ==> waiting == [])
      ensures Valid() && Trace() != Broken && (Trace() == Ended <==> outcome.Ok?)
      ensures outcome.Ok? ==> events != [] && events[|events| - 1] == AgentEnd(|requests|, outcome.text)
      ensures outcome.Ok? ==> outcome.usage == Usage.Fold(Usage.ZERO, Reports())
      ensures |requests| <= maxSteps && Progressing(requests)
      ensures outcome == Err(EmptyPrompt) <==> Blank(userPrompt) && images == []
      ensures if requests == [] then session.history == before && NeverBegan(env, userPrompt, outcome)
              else Went(env, before, requests, outcome, done) && Begins(env, userPrompt, images, requests[0])
    {
      hide Waiting, LeadsTo, Explains, Progress, Blank;
      requests, waiting, done := [], [], 0;
      if Blank(userPrompt) && |images| == 0 {
        return Err(EmptyPrompt), requests, waiting, done;
      }
      Emit(AgentStart);
      var first := FirstMessages(env, userPrompt);
      if first.None? {
        return Err(HookError), requests, waiting, done;
      }
      var request := Request(first.value, images, []);
      assert Ids(request.toolResults) == [];
      outcome, requests, waiting, done := Cycle(env, request, before);
    }
  }

  lemma ReasonIsNoEmptyPrompt(env: Env, step: nat, request: Request, reason: Reason)
    requires Explains(env, step, request, reason)
    ensures reason != EmptyPrompt && reason != ExceededSteps
  {
  }

  lemma Regrouped(a: seq<Item>, b: seq<Item>, c: seq<Item>)
    ensures a + b + c == a + (b + c)
  {
  }

  lemma {:induction false} StoredEarlier(env: Env, requests: seq<Request>, last: Request, n: nat)
    requires n <= |requests|
    ensures Stored(env, requests + [last], n) == Stored(env, requests, n)
  {
    hide Additions, HistoryItems;
    if n > 0 {
      StoredEarlier(env, requests, last, n - 1);
      assert (requests + [last])[n - 1] == requests[n - 1];
    }
  }

  lemma NothingUsedYet(env: Env)
    ensures Usage.ZERO == Usage.Fold(Usage.ZERO, UsagesAt(env, 0))
  {
  }

  lemma UsagesOneMore(env: Env, usage: Usage.Usage, n: nat)
    requires n > 0 && env.respond(n).Completed? && usage == Usage.Fold(Usage.ZERO, UsagesAt(env, n - 1))
    ensures Usage.Add(usage, env.respond(n).usage) == Usage.Fold(Usage.ZERO, UsagesAt(env, n))
  {
    Usage.FoldOneMore(Usage.ZERO, UsagesAt(env, n - 1), env.respond(n).usage);
  }

  lemma NoOutputs(env: Env, tools: set<string>, h: seq<Item>, start: nat, done: nat)
    ensures OutputsAreProduced(env, tools, [], done, h, start)
  {
  }

  lemma {:induction false} StoredIsPrefix(env: Env, requests: seq<Request>, m: nat, n: nat)
    requires m <= n <= |requests|
    ensures Stored(env, requests, m) <= Stored(env, requests, n)
  {
    hide Additions, HistoryItems;
    if m < n {
      StoredIsPrefix(env, requests, m, n - 1);
    }
  }

  lemma AllOutputsAreProduced(env: Env, tools: set<string>, requests: seq<Request>, done: nat, before: seq<Item>)
    requires AllLeadOn(env, tools, requests) && done <= |requests|
    ensures OutputsAreProduced(env, tools, requests, done, before + Stored(env, requests, done), |before|)
  {
    hide Stored, LeadsTo, OutputsOfStep, CallsAt;
    forall k | 0 < k < done
      ensures OutputsAt(env, tools, requests, k, before + Stored(env, requests, done), |before|)
    {
      OutputsStoredAt(env, tools, requests, k);
      StoredIsPrefix(env, requests, k + 1, done);
      var h, n := before + Stored(env, requests, done), |CallsAt(env, k)|;
      var from := |Stored(env, requests, k)|;
      assert h[|before| + from..|before| + from + n] == Stored(env, requests, k + 1)[from..from + n];
    }
  }

  lemma OutputsStoredAt(env: Env, tools: set<string>, requests: seq<Request>, k: nat)
    requires AllLeadOn(env, tools, requests) && 0 < k < |requests|
    ensures
      var from, n := |Stored(env, requests, k)|, |CallsAt(env, k)|;
      && from + n <= |Stored(env, requests, k + 1)|
      && OutputsOfStep(env, tools, k, Stored(env, requests, k + 1)[from..from + n])
  {
    hide Stored, Additions, HistoryItems, Prepared, OutputsOfStep, CallsAt, Outputs;
    StoredOneMore(env, requests, k + 1);
    var next := requests[k];
    assert LeadsTo(env, tools, k, next);
    OutputsFirst(next);
    AllOutputsProduced(env, tools, k, next.toolResults);
    var before, added := Stored(env, requests, k), Additions(next) + HistoryItems(ItemsOf(env.respond(k + 1)));
    var from, n := |before|, |next.toolResults|;
    assert (before + added)[from..from + n] == added[..n] == Additions(next)[..n];
  }

  lemma OutputsFirst(r: Request)
    ensures |r.toolResults| <= |Additions(r)| && Additions(r)[..|r.toolResults|] == Outputs(r.toolResults)
  {
  }

  lemma AllOutputsProduced(env: Env, tools: set<string>, step: nat, results: seq<ToolResult>)
    requires AllProduced(env, tools, step, CallsAt(env, step), results)
    ensures OutputsOfStep(env, tools, step, Outputs(results))
  {
    hide OutputIsProduced, Produced, CallsAt;
    forall i | 0 <= i < |results|
      ensures OutputIsProduced(env, tools, step, i, Outputs(results)[i])
    {
      assert Produced(env, tools, step, i, CallsAt(env, step)[i], results[i]);
      OneOutputProduced(env, tools, step, i, results[i]);
    }
  }

  lemma OneOutputProduced(env: Env, tools: set<string>, step: nat, i: nat, result: ToolResult)
    requires i < |CallsAt(env, step)| && Produced(env, tools, step, i, CallsAt(env, step)[i], result)
    ensures OutputIsProduced(env, tools, step, i, Output(result))
  {
    hide CallsAt;
    MarkedIsStored(result);
  }

  lemma MarkedIsStored(r: ToolResult)
    ensures Output(r) == CallOutput(r.callId, Marked((r.output, r.isError)))
  {
    assert "" + r.output == r.output;
  }

  lemma StoredOneMore(env: Env, requests: seq<Request>, n: nat)
    requires 0 < n <= |requests|
    ensures Stored(env, requests, n) ==
            Stored(env, requests, n - 1) + (Additions(requests[n - 1]) + HistoryItems(ItemsOf(env.respond(n))))
  {
  }

  lemma NothingStoredYet(env: Env, tools: set<string>, first: Request)
    ensures Stored(env, [], 0) == [] && AllLeadOn(env, tools, [] + [first])
  {
  }

  lemma FewerLeadOn(env: Env, tools: set<string>, requests: seq<Request>, last: Request)
    requires AllLeadOn(env, tools, requests + [last])
    ensures AllLeadOn(env, tools, requests)
  {
    hide LeadsTo;
    assert forall k :: 0 < k < |requests| ==> (requests + [last])[k] == requests[k];
  }

  lemma OneMoreLeadsOn(env: Env, tools: set<string>, requests: seq<Request>, next: Request)
    requires requests != [] && AllLeadOn(env, tools, requests) && LeadsTo(env, tools, |requests|, next)
    ensures AllLeadOn(env, tools, requests + [next])
  {
    hide LeadsTo;
  }

  lemma AnsweredByRunIff(before: seq<Item>, after: seq<Item>, waiting: seq<string>)
    requires before <= after && Waiting(after[|before|..], waiting)
    ensures AllNamedAnswered(before) ==> (AllNamedAnswered(after) <==> waiting == [] && NoneLost(after[|before|..]))
  {
    if AllNamedAnswered(before) {
      AnsweredAfterIff(before, after[|before|..], waiting);
      assert before + after[|before|..] == after;
    }
  }

  lemma NothingAdded(h: seq<Item>)
    ensures h <= h && h[|h|..] == [] && Waiting([], [])
  {
  }

  /** A successful step, seen from what was there before the run. */
  lemma StepAdds(h: seq<Item>, before: seq<Item>, request: Request, items: seq<RawItem>)
    requires before <= h && Waiting(h[|before|..], Ids(request.toolResults))
    ensures
      var after := h + Additions(request) + HistoryItems(items);
      before <= after && Waiting(after[|before|..], IdsOfCalls(ToolCalls(items)))
  {
    BehindStart(h, before, Additions(request), HistoryItems(items));
    StepWaits(h[|before|..], request, items);
  }

  lemma BehindStart(h: seq<Item>, before: seq<Item>, x: seq<Item>, y: seq<Item>)
    requires before <= h
    ensures before <= h + x + y && (h + x + y)[|before|..] == h[|before|..] + x + y
  {
  }

  /**
   What the daemon adds to the thread while a run streams is what the run returns, added once, exactly if no zero
   total or context of the returned usage is misread; non-negative counters never are.
   */
  lemma ThreadTotals(thread: Usage.Usage, events: seq<Event>)
    ensures
      var reports, returned := UsagesOf(events), Usage.Fold(Usage.ZERO, UsagesOf(events));
      && (Usage.DaemonFold(thread, reports) == Usage.Add(thread, returned) <==> Usage.AddsOnce(thread, returned))
      && (Usage.AllNonNegative(reports) ==> Usage.AddsOnce(thread, returned))
  {
    var reports := UsagesOf(events);
    Usage.DaemonAgrees(thread, reports);
    Usage.FoldIsOneAdditionIff(thread, reports);
    if Usage.AllNonNegative(reports) {
      Usage.FoldIsOneAddition(thread, reports);
    }
  }
}
