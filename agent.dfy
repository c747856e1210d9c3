/** The agent step `runAgent` (server.js:57-81) and the `/chat` entry guard
    (server.js:165-176). The chat model is an oracle: a total function from the
    request it is sent to the response it gives, so that every property below
    holds whatever the model answers. */
module Agent {
  import opened Wrappers
  import opened Tools
  import Inventory

  /** The two message classes the exchange uses: `HumanMessage` and `ToolMessage`. */
  datatype Message =
    | HumanMessage(content: string)
    | ToolMessage(content: string, toolCallId: string)

  datatype ToolChoice = Auto

  /** The options object of the first `llm.invoke`: tools and `tool_choice`. */
  datatype CallOptions = CallOptions(tools: seq<Declaration>, toolChoice: ToolChoice)

  /** One `llm.invoke(messages[, options])`; `options` is `None` when the call
      passes no second argument. */
  datatype Request = Request(messages: seq<Message>, options: Option<CallOptions>)

  /** One entry of `additional_kwargs.tool_calls`. */
  datatype ToolCall = ToolCall(id: string, name: string, args: map<string, string>)

  /** A model response: its `content` and, when present, its `tool_calls`. */
  datatype Response = Response(content: string, toolCalls: Option<seq<ToolCall>>)

  /** The chat model, as seen by the agent. */
  type Model = Request -> Response

  /** One run of a tool's executor: which tool, on what argument, with what result. */
  datatype Execution = Execution(tool: string, argument: string, result: string)

  /** What one exchange produces: the reply, and the trace of model calls and
      tool runs it made, in order. */
  datatype Outcome = Outcome(reply: string, requests: seq<Request>, executions: seq<Execution>)

  const Preamble: string := "أنت مساعد ذكي يتحدث العربية بلهجة جزائرية. استخدم الأدوات عند الحاجة (مثل المخزون). السؤال: "

  /** The single human message the exchange starts from. */
  function Prompt(userMessage: string): Message {
    HumanMessage(Preamble + userMessage)
  }

  /** The first model call: the prompt, every registered tool, `tool_choice: 'auto'`. */
  function FirstRequest(userMessage: string): Request {
    Request([Prompt(userMessage)], Some(CallOptions(Declarations(Registry), Auto)))
  }

  /** The tool calls the loop walks over: none when `tool_calls` is absent. */
  function CallsOf(response: Response): seq<ToolCall> {
    match response.toolCalls
    case None => []
    case Some(calls) => calls
  }

  /** `call.args.product_name`, interpolated into the query: a missing field
      is JavaScript's `undefined`, which a template literal renders as "undefined". */
  function ProductName(call: ToolCall): string {
    if "product_name" in call.args then call.args["product_name"] else "undefined"
  }

  /** Index of the first tool call whose name the registry knows. */
  function FirstDispatchable(calls: seq<ToolCall>): (r: Option<nat>)
    ensures r.Some? ==> r.value < |calls| && IsRegistered(calls[r.value].name)
    ensures r.Some? ==> forall j :: 0 <= j < r.value ==> !IsRegistered(calls[j].name)
    ensures r.None? <==> forall j :: 0 <= j < |calls| ==> !IsRegistered(calls[j].name)
  {
    if calls == [] then None
    else if IsRegistered(calls[0].name) then Some(0)
    else match FirstDispatchable(calls[1..])
      case None => None
      case Some(k) => Some(k + 1)
  }

  /** The exchange `runAgent` performs against `model`, as a specification. */
  function Exchange(userMessage: string, model: Model): Outcome {
    var first := FirstRequest(userMessage);
    var response := model(first);
    var calls := CallsOf(response);
    match FirstDispatchable(calls)
    case None => Outcome(response.content, [first], [])
    case Some(k) =>
      var call := calls[k];
      var tool := FindTool(Registry, call.name).value;
      var arg := ProductName(call);
      var result := Invoke(tool, arg);
      var second := Request([Prompt(userMessage), ToolMessage(result, call.id)], None);
      Outcome(model(second).content, [first, second], [Execution(tool.name, arg, result)])
  }

  /** `runAgent(userMessage)`: builds the message list, calls the model with
      the tools, walks `tool_calls` in order, runs the first registered tool,
      pushes its `ToolMessage` and calls the model again without tools. */
  method RunAgent(userMessage: string, model: Model)
    returns (reply: string, requests: seq<Request>, executions: seq<Execution>)
    ensures Outcome(reply, requests, executions) == Exchange(userMessage, model)
  {
    var messages := [Prompt(userMessage)];
    var first := Request(messages, Some(CallOptions(Declarations(Registry), Auto)));
    requests := [first];
    executions := [];
    var response := model(first);
    if response.toolCalls.Some? {
      var calls := response.toolCalls.value;
      var i := 0;
      while i < |calls|
        invariant 0 <= i <= |calls|
        invariant forall j :: 0 <= j < i ==> !IsRegistered(calls[j].name)
        invariant messages == [Prompt(userMessage)] && requests == [first] && executions == []
      {
        var call := calls[i];
        var tool := FindTool(Registry, call.name);
        if tool.Some? {
          var arg := ProductName(call);
          var result := Invoke(tool.value, arg);
          messages := messages + [ToolMessage(result, call.id)];
          var second := Request(messages, None);
          requests := requests + [second];
          executions := executions + [Execution(tool.value.name, arg, result)];
          var final := model(second);
          reply := final.content;
          assert first == FirstRequest(userMessage) && calls == CallsOf(response);
          assert FirstDispatchable(calls) == Some(i);
          assert second == Request([Prompt(userMessage), ToolMessage(result, call.id)], None);
          return;
        }
        i := i + 1;
      }
      assert calls == CallsOf(response) && FirstDispatchable(calls) == None;
    }
    reply := response.content;
  }

  // ---------------------------------------------------------------------------
  // Properties of the exchange
  // ---------------------------------------------------------------------------

  /** The first call carries exactly the one human message and offers every
      registered tool (name, description, schema) with `tool_choice: 'auto'`. */
  lemma FirstCallShape(userMessage: string, model: Model)
    ensures var o := Exchange(userMessage, model);
      |o.requests| >= 1 &&
      o.requests[0].messages == [HumanMessage(Preamble + userMessage)] &&
      o.requests[0].options.Some? &&
      o.requests[0].options.value.toolChoice == Auto &&
      |o.requests[0].options.value.tools| == |Registry| &&
      forall i :: 0 <= i < |Registry| ==>
        o.requests[0].options.value.tools[i] == Declaration(Registry[i].name, Registry[i].description, Registry[i].parameters)
  {
  }

  /** At most two model calls and at most one tool run; a tool run happens
      exactly when a second call is made. */
  lemma ExchangeBounds(userMessage: string, model: Model)
    ensures var o := Exchange(userMessage, model);
      1 <= |o.requests| <= 2 && |o.executions| == |o.requests| - 1
  {
  }

  /** When no tool call names a registered tool (in particular when
      `tool_calls` is absent or empty), the model is called once and its
      `content` is the reply, unchanged. */
  lemma NoDispatchOneCall(userMessage: string, model: Model)
    requires forall j :: 0 <= j < |CallsOf(model(FirstRequest(userMessage)))| ==>
      !IsRegistered(CallsOf(model(FirstRequest(userMessage)))[j].name)
    ensures Exchange(userMessage, model) ==
      Outcome(model(FirstRequest(userMessage)).content, [FirstRequest(userMessage)], [])
  {
  }

  /** When the first registered call is at index `k`: its tool runs once on
      `args.product_name`; the second call is sent exactly the prompt and one
      `ToolMessage` carrying the result and `call.id`, with no tools; its
      `content` is the reply. */
  lemma DispatchTwoCalls(userMessage: string, model: Model, k: nat)
    requires k < |CallsOf(model(FirstRequest(userMessage)))|
    requires IsRegistered(CallsOf(model(FirstRequest(userMessage)))[k].name)
    requires forall j :: 0 <= j < k ==> !IsRegistered(CallsOf(model(FirstRequest(userMessage)))[j].name)
    ensures var call := CallsOf(model(FirstRequest(userMessage)))[k];
      var result := Inventory.Lookup(ProductName(call));
      var second := Request([Prompt(userMessage), ToolMessage(result, call.id)], None);
      Exchange(userMessage, model) ==
        Outcome(model(second).content, [FirstRequest(userMessage), second],
                [Execution("get_product_stock", ProductName(call), result)])
  {
    var calls := CallsOf(model(FirstRequest(userMessage)));
    assert FirstDispatchable(calls) == Some(k);
    FindInRegistry(calls[k].name);
  }

  /** A stock question answered with a single `get_product_stock` call for
      "iPhone 15": the second model call receives the tool message with the
      iPhone's row, under the call's id. */
  lemma IphoneStockExchange(userMessage: string, model: Model, id: string)
    requires model(FirstRequest(userMessage)).toolCalls ==
      Some([ToolCall(id, "get_product_stock", map["product_name" := "iPhone 15"])])
    ensures var o := Exchange(userMessage, model);
      |o.requests| == 2 &&
      o.requests[1].messages == [Prompt(userMessage), ToolMessage(Inventory.Format(Inventory.Row("iPhone 15", 12)), id)] &&
      o.executions == [Execution("get_product_stock", "iPhone 15", Inventory.Format(Inventory.Row("iPhone 15", 12)))]
  {
    var calls := CallsOf(model(FirstRequest(userMessage)));
    FindInRegistry(calls[0].name);
    DispatchTwoCalls(userMessage, model, 0);
    Inventory.LookupIphone();
  }

  /** Calls naming unregistered tools are skipped: putting any number of them
      in front of the list moves the dispatched call, and changes nothing else. */
  lemma {:induction false} SkipUnregistered(skipped: seq<ToolCall>, calls: seq<ToolCall>)
    requires forall j :: 0 <= j < |skipped| ==> !IsRegistered(skipped[j].name)
    ensures FirstDispatchable(skipped + calls) ==
      match FirstDispatchable(calls)
      case None => None
      case Some(k) => Some(|skipped| + k)
  {
    if skipped == [] {
      assert skipped + calls == calls;
    } else {
      var all := skipped + calls;
      assert all[0] == skipped[0] && all[1..] == skipped[1..] + calls;
      SkipUnregistered(skipped[1..], calls);
      assert !IsRegistered(all[0].name);
    }
  }

  /** Tool calls in the second response are ignored: two models that agree on
      the first call and on the `content` of every tool-less call yield the
      same exchange. */
  lemma SecondResponseToolCallsIgnored(userMessage: string, model: Model, other: Model)
    requires model(FirstRequest(userMessage)) == other(FirstRequest(userMessage))
    requires forall r: Request :: r.options.None? ==> model(r).content == other(r).content
    ensures Exchange(userMessage, model) == Exchange(userMessage, other)
  {
  }

  // ---------------------------------------------------------------------------
  // The `/chat` endpoint (server.js:165-176)
  // ---------------------------------------------------------------------------

  /** The JSON body the endpoint answers with. */
  datatype ChatBody = ReplyBody(reply: string) | ErrorBody(error: string)

  const EmptyMessageError: string := "اكتب شيئًا"

  /** JavaScript truthiness of `req.body.message`, for a missing or string value. */
  predicate IsFalsy(message: Option<string>) {
    message.None? || message.value == ""
  }

  /** `POST /chat`: a falsy message is answered 400 before the agent runs
      (no model call is made); otherwise the agent's reply is sent with 200. */
  method Chat(message: Option<string>, model: Model)
    returns (status: nat, body: ChatBody, requests: seq<Request>)
    ensures IsFalsy(message) ==> status == 400 && body == ErrorBody(EmptyMessageError) && requests == []
    ensures !IsFalsy(message) ==>
      status == 200 &&
      body == ReplyBody(Exchange(message.value, model).reply) &&
      requests == Exchange(message.value, model).requests
  {
    if IsFalsy(message) {
      return 400, ErrorBody(EmptyMessageError), [];
    }
    var reply, executions;
    reply, requests, executions := RunAgent(message.value, model);
    status, body := 200, ReplyBody(reply);
  }
}
