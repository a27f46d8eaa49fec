/** The provider session: what one model step adds to the history, and how calls and outputs line up in it. */
module CodexSession {
  import opened Text
  import Usage
  import opened Wrappers

  /**
   A stream item: no JSON object, `null`, an object one of whose call fields has the wrong type, or a decoded
   object. An undecoded item keeps the fields that are strings, and "" for the others.
   */
  datatype RawItem =
    | NotObject
    | Null
    | Undecoded(kind: string, name: string, callId: string)
    | Typed(kind: string, callId: string, name: string, arguments: string, validArguments: bool)

  datatype ToolCall = ToolCall(id: string, name: string, arguments: string)

  datatype ToolResult = ToolResult(callId: string, output: string, isError: bool)

  datatype Image = Image(mimeType: string, data: seq<int>)

  datatype Item =
    | FromModel(raw: RawItem)
    | CallOutput(callId: string, output: string)
    | UserMessage(text: string, images: seq<Image>)

  datatype Request = Request(userMessages: seq<string>, images: seq<Image>, toolResults: seq<ToolResult>)

  datatype ModelEvent = TextDelta | ReasoningDelta(delta: string) | ReasoningDone(text: string) | ItemDone

  /** What the provider does with a request: the events it streams, then a failure or a complete response. */
  datatype Response =
    | Failed(events: seq<ModelEvent>)
    | Completed(events: seq<ModelEvent>, items: seq<RawItem>, text: string, usage: Usage.Usage)

  datatype StepResult = NoInput | StepFailed | StepDone(calls: seq<ToolCall>, text: string, usage: Usage.Usage)

  /** A function call with a name, whether or not its other fields decode. */
  predicate NamesCall(raw: RawItem) {
    (raw.Typed? || raw.Undecoded?) && raw.kind == "function_call" && raw.name != ""
  }

  /** A call that is handed to the loop. */
  predicate IsCall(raw: RawItem) {
    raw.Typed? && NamesCall(raw)
  }

  /** A named call that is skipped because it does not decode. */
  predicate IsLost(raw: RawItem) {
    raw.Undecoded? && NamesCall(raw)
  }

  function CallOf(raw: RawItem): ToolCall
    requires IsCall(raw)
  {
    ToolCall(raw.callId, raw.name, if raw.validArguments then raw.arguments else "{}")
  }

  function ToolCalls(items: seq<RawItem>): seq<ToolCall> {
    if items == [] then []
    else
      var last := items[|items| - 1];
      ToolCalls(items[..|items| - 1]) + if IsCall(last) then [CallOf(last)] else []
  }

  function HistoryItems(items: seq<RawItem>): seq<Item> {
    if items == [] then []
    else
      var last := items[|items| - 1];
      HistoryItems(items[..|items| - 1]) + if last.NotObject? then [] else [FromModel(last)]
  }

  function CallFlags(items: seq<RawItem>): seq<bool> {
    seq(|items|, i requires 0 <= i < |items| =>
      items[i].Typed? && items[i].kind == "function_call" && items[i].name != "")
  }

  /** The calls are the decoded function calls with a name, in order; invalid arguments are dropped. */
  lemma {:induction false} ToolCallsMean(items: seq<RawItem>) returns (at: seq<nat>)
    ensures Picks(at, CallFlags(items)) && |at| == |ToolCalls(items)|
    ensures forall k :: 0 <= k < |at| ==>
              && at[k] < |items| && items[at[k]].Typed?
              && ToolCalls(items)[k].id == items[at[k]].callId && ToolCalls(items)[k].name == items[at[k]].name
              && ToolCalls(items)[k].arguments == if items[at[k]].validArguments then items[at[k]].arguments else "{}"
  {
    hide Picks;
    if items == [] {
      at := [];
      NothingPicked();
      assert CallFlags(items) == [];
    } else {
      var n := |items| - 1;
      var before := ToolCallsMean(items[..n]);
      assert CallFlags(items) == CallFlags(items[..n]) + [IsCall(items[n])];
      PicksOneMore(before, CallFlags(items[..n]), IsCall(items[n]));
      at := Picking(before, n, IsCall(items[n]));
    }
  }

  function ItemFlags(items: seq<RawItem>): seq<bool> {
    seq(|items|, i requires 0 <= i < |items| => items[i] != NotObject)
  }

  /** The model's items are stored in order, all that are an object or null. */
  lemma {:induction false} HistoryItemsMean(items: seq<RawItem>) returns (at: seq<nat>)
    ensures Picks(at, ItemFlags(items)) && |at| == |HistoryItems(items)|
    ensures forall k :: 0 <= k < |at| ==> at[k] < |items| && HistoryItems(items)[k] == FromModel(items[at[k]])
  {
    hide Picks;
    if items == [] {
      at := [];
      NothingPicked();
      assert ItemFlags(items) == [];
    } else {
      var n := |items| - 1;
      var before := HistoryItemsMean(items[..n]);
      var flag := items[n] != NotObject;
      assert ItemFlags(items) == ItemFlags(items[..n]) + [flag];
      PicksOneMore(before, ItemFlags(items[..n]), flag);
      at := Picking(before, n, flag);
    }
  }

  method CollectToolCalls(items: seq<RawItem>) returns (calls: seq<ToolCall>)
    ensures calls == ToolCalls(items)
  {
    calls := [];
    for i := 0 to |items|
      invariant calls == ToolCalls(items[..i])
    {
      assert items[..i + 1][..i] == items[..i];
      if !items[i].Typed? || items[i].kind != "function_call" || items[i].name == "" {
        continue;
      }
      var arguments := items[i].arguments;
      if !items[i].validArguments {
        arguments := "{}";
      }
      calls := calls + [ToolCall(items[i].callId, items[i].name, arguments)];
    }
    assert items[..|items|] == items;
  }

  method CollectHistoryItems(items: seq<RawItem>) returns (history: seq<Item>)
    ensures history == HistoryItems(items)
  {
    history := [];
    for i := 0 to |items|
      invariant history == HistoryItems(items[..i])
    {
      assert items[..i + 1][..i] == items[..i];
      if items[i].NotObject? {
        continue;
      }
      history := history + [FromModel(items[i])];
    }
    assert items[..|items|] == items;
  }

  function Output(r: ToolResult): Item {
    CallOutput(r.callId, if r.isError then "Tool error: " + r.output else r.output)
  }

  function Outputs(results: seq<ToolResult>): seq<Item> {
    seq(|results|, i requires 0 <= i < |results| => Output(results[i]))
  }

  predicate Usable(image: Image) {
    image.data != [] && !Blank(image.mimeType)
  }

  function ImageContent(images: seq<Image>): seq<Image> {
    if images == [] then []
    else ImageContent(images[..|images| - 1]) + if Usable(images[|images| - 1]) then [images[|images| - 1]] else []
  }

  /** The user messages of a request; only the first one carries the images, and blank ones are skipped. */
  function Messages(messages: seq<string>, images: seq<Image>): seq<Item> {
    if messages == [] then []
    else
      var n := |messages| - 1;
      Messages(messages[..n], images) +
      if Blank(messages[n]) then []
      else [UserMessage(messages[n], if n == 0 then ImageContent(images) else [])]
  }

  function ImagesOnly(r: Request): seq<Item> {
    if r.userMessages == [] && r.images != [] then [UserMessage("", ImageContent(r.images))] else []
  }

  function Additions(r: Request): seq<Item> {
    Outputs(r.toolResults) + (Messages(r.userMessages, r.images) + ImagesOnly(r))
  }

  function ImageFlags(images: seq<Image>): seq<bool> {
    seq(|images|, i requires 0 <= i < |images| => images[i].data != [] && !Blank(images[i].mimeType))
  }

  /** Images with data and a type that is not blank are sent, in order. */
  lemma {:induction false} ImageContentMeans(images: seq<Image>) returns (at: seq<nat>)
    ensures Picks(at, ImageFlags(images)) && |at| == |ImageContent(images)|
    ensures forall k :: 0 <= k < |at| ==> at[k] < |images| && ImageContent(images)[k] == images[at[k]]
  {
    hide Picks, Blank;
    if images == [] {
      at := [];
      NothingPicked();
      assert ImageFlags(images) == [];
    } else {
      var n := |images| - 1;
      var before := ImageContentMeans(images[..n]);
      var flag := Usable(images[n]);
      assert ImageFlags(images) == ImageFlags(images[..n]) + [flag];
      PicksOneMore(before, ImageFlags(images[..n]), flag);
      at := Picking(before, n, flag);
    }
  }

  function MessageFlags(messages: seq<string>): seq<bool> {
    seq(|messages|, i requires 0 <= i < |messages| => !Blank(messages[i]))
  }

  /** Every message that is not blank is stored, in order, the first of a request with its images. */
  lemma {:induction false} MessagesMean(messages: seq<string>, images: seq<Image>) returns (at: seq<nat>)
    ensures Picks(at, MessageFlags(messages)) && |at| == |Messages(messages, images)|
    ensures forall k :: 0 <= k < |at| ==>
              && at[k] < |messages|
              && Messages(messages, images)[k] ==
                 UserMessage(messages[at[k]], if at[k] == 0 then ImageContent(images) else [])
  {
    hide Picks, Blank, ImageContent;
    if messages == [] {
      at := [];
      NothingPicked();
      assert MessageFlags(messages) == [];
    } else {
      var n := |messages| - 1;
      var before := MessagesMean(messages[..n], images);
      var flag := !Blank(messages[n]);
      assert MessageFlags(messages) == MessageFlags(messages[..n]) + [flag];
      PicksOneMore(before, MessageFlags(messages[..n]), flag);
      at := Picking(before, n, flag);
    }
  }

  /** What a successful step stores of its request: the results, failed ones marked, then the messages. */
  lemma AdditionsMean(r: Request)
    ensures |Additions(r)| >= |r.toolResults|
    ensures forall i :: 0 <= i < |r.toolResults| ==>
              Additions(r)[i] ==
              CallOutput(r.toolResults[i].callId,
                         (if r.toolResults[i].isError then "Tool error: " else "") + r.toolResults[i].output)
    ensures Additions(r)[|r.toolResults|..] ==
            if r.userMessages == [] && r.images != [] then [UserMessage("", ImageContent(r.images))]
            else Messages(r.userMessages, r.images)
  {
    forall i | 0 <= i < |r.toolResults|
      ensures "" + r.toolResults[i].output == r.toolResults[i].output
    {
    }
  }

  class Session {
    var history: seq<Item>

    constructor (state: seq<Item>)
      ensures history == state
    {
      history := state;
    }

    /** A failed step leaves the history as it was; a successful one appends its input and the model's items. */
    method Step(step: Request, response: Response) returns (result: StepResult)
      modifies this
      ensures result.NoInput? <==> step.userMessages == [] && step.images == [] && step.toolResults == []
      ensures result.StepDone? <==> !result.NoInput? && response.Completed?
      ensures !result.StepDone? ==> history == old(history)
      ensures result.StepDone? ==>
                && history == old(history) + Additions(step) + HistoryItems(response.items)
                && result == StepDone(ToolCalls(response.items), response.text, response.usage)
    {
      if |step.userMessages| == 0 && |step.images| == 0 && |step.toolResults| == 0 {
        return NoInput;
      }
      var additions := [];
      for i := 0 to |step.toolResults|
        invariant additions == Outputs(step.toolResults[..i])
      {
        var output := step.toolResults[i].output;
        if step.toolResults[i].isError {
          output := "Tool error: " + output;
        }
        additions := additions + [CallOutput(step.toolResults[i].callId, output)];
      }
      assert step.toolResults[..|step.toolResults|] == step.toolResults;
      var images := CollectImages(step.images);
      var users := [];
      for i := 0 to |step.userMessages|
        invariant users == Messages(step.userMessages[..i], step.images)
      {
        assert step.userMessages[..i + 1][..i] == step.userMessages[..i];
        if Blank(step.userMessages[i]) {
          continue;
        }
        var content := [];
        if i == 0 {
          content := images;
        }
        users := users + [UserMessage(step.userMessages[i], content)];
      }
      assert step.userMessages[..|step.userMessages|] == step.userMessages;
      if |step.userMessages| == 0 && |step.images| != 0 {
        users := users + [UserMessage("", images)];
      }
      additions := additions + users;
      assert additions == Additions(step);
      var input := history + additions;
      if response.Failed? {
        return StepFailed;
      }
      var items := CollectHistoryItems(response.items);
      history := input + items;
      var calls := CollectToolCalls(response.items);
      return StepDone(calls, response.text, response.usage);
    }
  }

  method CollectImages(images: seq<Image>) returns (content: seq<Image>)
    ensures content == ImageContent(images)
  {
    content := [];
    for i := 0 to |images|
      invariant content == ImageContent(images[..i])
    {
      assert images[..i + 1][..i] == images[..i];
      if |images[i].data| == 0 || Blank(images[i].mimeType) {
        continue;
      }
      content := content + [images[i]];
    }
    assert images[..|images|] == images;
  }

  /** Ids of the decoded calls of a history, in order. */
  function CallIds(h: seq<Item>): seq<string> {
    if h == [] then []
    else
      var last := h[|h| - 1];
      CallIds(h[..|h| - 1]) + if last.FromModel? && IsCall(last.raw) then [last.raw.callId] else []
  }

  /** Ids of the call outputs of a history, in order. */
  function OutputIds(h: seq<Item>): seq<string> {
    if h == [] then []
    else OutputIds(h[..|h| - 1]) + if h[|h| - 1].CallOutput? then [h[|h| - 1].callId] else []
  }

  /** Up to item `k` the outputs answer the calls in call order, and all of them if `k` is a user message. */
  ghost predicate OrderedAt(h: seq<Item>, k: nat)
    requires k <= |h|
  {
    && OutputIds(h[..k]) <= CallIds(h[..k])
    && (k < |h| && h[k].UserMessage? ==> OutputIds(h[..k]) == CallIds(h[..k]))
  }

  /** Outputs answer calls in call order, and no user message comes between a call and its output. */
  ghost predicate InOrder(h: seq<Item>) {
    forall k :: 0 <= k <= |h| ==> OrderedAt(h, k)
  }

  /** What is in order was in order at every point before, and each output there belongs to the call at its position. */
  lemma InOrderAt(h: seq<Item>, k: nat, i: nat)
    requires InOrder(h) && k <= |h|
    ensures InOrder(h[..k])
    ensures i < |OutputIds(h[..k])| ==> i < |CallIds(h[..k])| && OutputIds(h[..k])[i] == CallIds(h[..k])[i]
    ensures k < |h| && h[k].UserMessage? ==> OutputIds(h[..k]) == CallIds(h[..k])
  {
    assert OrderedAt(h, k);
    forall j | 0 <= j <= k
      ensures OrderedAt(h[..k], j)
    {
      assert h[..k][..j] == h[..j] && OrderedAt(h, j);
    }
  }

  /** `h` is in order and the ids still waiting for an output are exactly `open`. */
  ghost predicate Waiting(h: seq<Item>, open: seq<string>) {
    InOrder(h) && CallIds(h) == OutputIds(h) + open
  }

  lemma IdsOneMore(h: seq<Item>, item: Item)
    ensures OutputIds(h + [item]) == OutputIds(h) + if item.CallOutput? then [item.callId] else []
    ensures CallIds(h + [item]) == CallIds(h) + if item.FromModel? && IsCall(item.raw) then [item.raw.callId] else []
  {
    assert (h + [item])[..|h|] == h;
  }

  lemma OrderOneMore(h: seq<Item>, item: Item)
    requires InOrder(h)
    requires item.UserMessage? ==> OutputIds(h) == CallIds(h)
    requires OutputIds(h + [item]) <= CallIds(h + [item])
    ensures InOrder(h + [item])
  {
    hide OutputIds, CallIds;
    var g := h + [item];
    assert g[..|g|] == g && g[|h|] == item;
    forall k | 0 <= k <= |h|
      ensures OrderedAt(g, k)
    {
      assert g[..k] == h[..k] && OrderedAt(h, k);
      assert k == |h| ==> h[..k] == h;
    }
  }

  lemma AppendWaits(h: seq<Item>, item: Item, open: seq<string>)
    requires Waiting(h, open)
    ensures item.FromModel? ==> Waiting(h + [item], open + if IsCall(item.raw) then [item.raw.callId] else [])
    ensures item.UserMessage? && open == [] ==> Waiting(h + [item], [])
    ensures item.CallOutput? && open != [] && open[0] == item.callId ==> Waiting(h + [item], open[1..])
  {
    hide InOrder, OutputIds, CallIds;
    IdsOneMore(h, item);
    if item.FromModel? || (item.UserMessage? && open == [])
      || (item.CallOutput? && open != [] && open[0] == item.callId) {
      assert item.CallOutput? ==> open == [item.callId] + open[1..];
      OrderOneMore(h, item);
    }
  }

  function Ids(results: seq<ToolResult>): seq<string> {
    seq(|results|, i requires 0 <= i < |results| => results[i].callId)
  }

  function IdsOfCalls(calls: seq<ToolCall>): seq<string> {
    seq(|calls|, i requires 0 <= i < |calls| => calls[i].id)
  }

  lemma {:induction false} OutputsAnswer(h: seq<Item>, results: seq<ToolResult>)
    requires Waiting(h, Ids(results))
    ensures Waiting(h + Outputs(results), [])
    decreases |results|
  {
    if results == [] {
      assert h + Outputs(results) == h;
    } else {
      var item := Output(results[0]);
      assert Ids(results)[1..] == Ids(results[1..]);
      AppendWaits(h, item, Ids(results));
      OutputsAnswer(h + [item], results[1..]);
      assert h + Outputs(results) == (h + [item]) + Outputs(results[1..]);
    }
  }

  lemma {:induction false} UsersKeepAnswered(h: seq<Item>, users: seq<Item>)
    requires Waiting(h, [])
    requires forall i :: 0 <= i < |users| ==> users[i].UserMessage?
    ensures Waiting(h + users, [])
    decreases |users|
  {
    if users == [] {
      assert h + users == h;
    } else {
      AppendWaits(h, users[0], []);
      UsersKeepAnswered(h + [users[0]], users[1..]);
      assert h + users == (h + [users[0]]) + users[1..];
    }
  }

  lemma {:induction false} ItemsOpenCalls(h: seq<Item>, items: seq<RawItem>)
    requires Waiting(h, [])
    ensures Waiting(h + HistoryItems(items), IdsOfCalls(ToolCalls(items)))
  {
    if items == [] {
      assert h + HistoryItems(items) == h;
    } else {
      var last := items[|items| - 1];
      var before := h + HistoryItems(items[..|items| - 1]);
      ItemsOpenCalls(h, items[..|items| - 1]);
      if !last.NotObject? {
        AppendWaits(before, FromModel(last), IdsOfCalls(ToolCalls(items[..|items| - 1])));
        assert h + HistoryItems(items) == before + [FromModel(last)];
        assert IdsOfCalls(ToolCalls(items)) ==
               IdsOfCalls(ToolCalls(items[..|items| - 1])) + if IsCall(last) then [last.callId] else [];
      } else {
        assert h + HistoryItems(items) == before;
      }
    }
  }

  lemma {:induction false} MessagesAreUsers(messages: seq<string>, images: seq<Image>)
    ensures forall i :: 0 <= i < |Messages(messages, images)| ==> Messages(messages, images)[i].UserMessage?
  {
    if messages != [] {
      MessagesAreUsers(messages[..|messages| - 1], images);
    }
  }

  /** A successful step whose results answer the waiting calls leaves exactly its own calls waiting. */
  lemma StepWaits(h: seq<Item>, r: Request, items: seq<RawItem>)
    requires Waiting(h, Ids(r.toolResults))
    ensures Waiting(h + Additions(r) + HistoryItems(items), IdsOfCalls(ToolCalls(items)))
  {
    var users := Messages(r.userMessages, r.images) + ImagesOnly(r);
    assert Additions(r) == Outputs(r.toolResults) + users;
    OutputsAnswer(h, r.toolResults);
    MessagesAreUsers(r.userMessages, r.images);
    UsersKeepAnswered(h + Outputs(r.toolResults), users);
    assert h + Outputs(r.toolResults) + users == h + Additions(r);
    ItemsOpenCalls(h + Additions(r), items);
  }

  // ---- Every named call answered ----

  predicate HoldsNamedCall(item: Item) {
    item.FromModel? && NamesCall(item.raw)
  }

  /** Ids of the named calls of a history, decoded or not, in order. */
  function NamedIds(h: seq<Item>): seq<string> {
    if h == [] then []
    else
      var last := h[|h| - 1];
      NamedIds(h[..|h| - 1]) + if HoldsNamedCall(last) then [last.raw.callId] else []
  }

  /**
   Up to any item the outputs answer the named calls in order, before a user message all of them, and in the end all.
   */
  ghost predicate AllNamedAnswered(h: seq<Item>) {
    && OutputIds(h) == NamedIds(h)
    && forall k :: 0 <= k <= |h| ==> NamedInOrderAt(h, k)
  }

  ghost predicate NamedInOrderAt(h: seq<Item>, k: nat)
    requires k <= |h|
  {
    && OutputIds(h[..k]) <= NamedIds(h[..k])
    && (k < |h| && h[k].UserMessage? ==> OutputIds(h[..k]) == NamedIds(h[..k]))
  }

  predicate NoneLost(h: seq<Item>) {
    forall i :: 0 <= i < |h| ==> !(h[i].FromModel? && IsLost(h[i].raw))
  }

  lemma {:induction false} IdsOfParts(a: seq<Item>, b: seq<Item>)
    ensures NamedIds(a + b) == NamedIds(a) + NamedIds(b)
    ensures OutputIds(a + b) == OutputIds(a) + OutputIds(b)
  {
    if b == [] {
      assert a + b == a;
    } else {
      assert (a + b)[..|a + b| - 1] == a + b[..|b| - 1];
      IdsOfParts(a, b[..|b| - 1]);
    }
  }

  lemma {:induction false} LostCallsCount(h: seq<Item>)
    ensures |NamedIds(h)| >= |CallIds(h)|
    ensures |NamedIds(h)| == |CallIds(h)| <==> NoneLost(h)
    ensures NoneLost(h) ==> NamedIds(h) == CallIds(h)
  {
    if h != [] {
      LostCallsCount(h[..|h| - 1]);
      LostOneMore(h);
    }
  }

  lemma LostOneMore(h: seq<Item>)
    requires h != []
    ensures
      var last := h[|h| - 1];
      NoneLost(h) <==> NoneLost(h[..|h| - 1]) && !(last.FromModel? && IsLost(last.raw))
  {
    assert forall i :: 0 <= i < |h| - 1 ==> h[..|h| - 1][i] == h[i];
  }

  lemma PartInOrder(before: seq<Item>, added: seq<Item>, open: seq<string>, j: nat)
    requires AllNamedAnswered(before) && Waiting(added, open) && NoneLost(added) && j <= |added|
    ensures NamedInOrderAt(before + added, |before| + j)
  {
    var h := before + added;
    assert h[..|before| + j] == before + added[..j];
    IdsOfParts(before, added[..j]);
    assert OrderedAt(added, j);
    LostCallsCount(added[..j]);
  }

  /**
   What a run adds leaves every named call answered exactly when nothing waits any more and no named call was
   lost: one that does not decode is stored in the history but never run.
   */
  lemma AnsweredAfterIff(before: seq<Item>, added: seq<Item>, open: seq<string>)
    requires AllNamedAnswered(before) && Waiting(added, open)
    ensures AllNamedAnswered(before + added) <==> open == [] && NoneLost(added)
  {
    IdsOfParts(before, added);
    LostCallsCount(added);
    if open == [] && NoneLost(added) {
      forall k | 0 <= k <= |before + added|
        ensures NamedInOrderAt(before + added, k)
      {
        if k < |before| {
          assert (before + added)[..k] == before[..k];
          assert NamedInOrderAt(before, k);
        } else {
          PartInOrder(before, added, open, k - |before|);
        }
      }
    }
  }

  /** A call whose arguments are an object instead of a string is no call to run, and stays unanswered. */
  const LOST_CALL := Undecoded("function_call", "name", "id")

  lemma LostCallIsKeptAndNotRun()
    ensures IsLost(LOST_CALL) && ToolCalls([LOST_CALL]) == [] && HistoryItems([LOST_CALL]) == [FromModel(LOST_CALL)]
  {
    assert [LOST_CALL][..0] == [];
  }

  lemma LostCallIsNeverAnswered(before: seq<Item>, r: Request)
    requires AllNamedAnswered(before) && r.toolResults == []
    ensures ToolCalls([LOST_CALL]) == []
    ensures !AllNamedAnswered(before + (Additions(r) + HistoryItems([LOST_CALL])))
  {
    LostCallIsKeptAndNotRun();
    var added := Additions(r) + HistoryItems([LOST_CALL]);
    assert Ids(r.toolResults) == [] && IdsOfCalls([]) == [];
    StepWaits([], r, [LOST_CALL]);
    assert [] + Additions(r) + HistoryItems([LOST_CALL]) == added;
    assert added[|added| - 1] == FromModel(LOST_CALL);
    AnsweredAfterIff(before, added, []);
  }
}
