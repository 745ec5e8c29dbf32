/**
 The request loop between the language model and the tools, and the two passes a turn may take.
 The model and the tools are arbitrary functions: the model answers from the transcript it is
 sent, a tool from the call and from what ran before it.
 */
module ToolLoop {
  import opened Wrappers

  const NOT_ALLOWED := "Tool not available for this organization."
  const BLOCKED := "Tool not available for this turn."
  const FAILED := "Tool execution failed."
  const OUT_OF_TURNS := "I could not complete that request within the tool limit."

  datatype Intent = Read | Write

  datatype Tool = Tool(name: string, writes: bool, alwaysAvailable: bool, feature: Option<string>)

  datatype Org = Org(tools: seq<Tool>, features: set<string>)

  /** The arguments of a call as `json.loads` and then `dict` take them. */
  datatype Arguments = BadJson(message: string) | NotADict(message: string) | Object(text: string)

  datatype Call = Call(id: string, name: string, arguments: Arguments)

  /** What happens once a tool is asked: its arguments are invalid, it raises a lookup or
      validation error, it raises anything else, it answers with an error, or it answers. */
  datatype Behaviour =
    | Invalid(message: string)
    | RaisedLookup(message: string)
    | RaisedOther(message: string)
    | Refused(message: string, text: string)
    | Done(text: string)

  datatype Payload = ErrorOf(message: string) | Result(text: string)

  datatype OutputItem = Thought(text: string) | Message(text: string) | FunctionCall(call: Call)

  datatype Item = Given(text: string) | Produced(output: OutputItem) | Answer(callId: string, payload: Payload)

  datatype Response = Response(items: seq<OutputItem>, tokens: nat)

  datatype Entry = Entry(name: string, ok: bool, error: string)

  datatype Run = Run(call: Call)

  datatype UsageRow = UsageRow(iteration: nat, ok: bool, tokens: nat, entries: seq<Entry>)

  datatype Outcome = Success(text: string) | LimitExceeded(text: string) | Raised

  datatype Env = Env(
    registry: map<string, Tool>,
    allowed: set<string>,
    intent: Option<Intent>,
    behave: (seq<Run>, Call) -> Behaviour,
    clamp: Payload -> Payload,
    model: (nat, seq<Item>) -> Option<Response>) // None: the request raised

  /** Everything the loop keeps: the input list, the tool log, the tools that ran, the inputs
      sent so far, the usage rows and the token total. */
  datatype Loop = Loop(
    transcript: seq<Item>,
    log: seq<Entry>,
    runs: seq<Run>,
    requests: seq<seq<Item>>,
    rows: seq<UsageRow>,
    tokens: nat)

  // ---------------------------------------------------------------------------------------
  // One call

  datatype Handled = Handled(entry: Entry, payload: Payload, ran: bool)

  function UnknownTool(name: string): string { "'Unknown tool: " + name + "'" }

  function TurnAway(call: Call, error: string): Handled {
    Handled(Entry(call.name, false, error), ErrorOf(error), false)
  }

  predicate Withheld(tool: Tool, intent: Option<Intent>) {
    intent == Some(Read) && tool.writes && !tool.alwaysAvailable
  }

  function Handle(env: Env, runs: seq<Run>, call: Call): Handled {
    if call.arguments.BadJson? then TurnAway(call, call.arguments.message)
    else if call.name !in env.allowed then TurnAway(call, NOT_ALLOWED)
    else if call.name !in env.registry then TurnAway(call, UnknownTool(call.name))
    else if Withheld(env.registry[call.name], env.intent) then TurnAway(call, BLOCKED)
    else if call.arguments.NotADict? then
      Handled(Entry(call.name, false, call.arguments.message), ErrorOf(FAILED), false)
    else
      match env.behave(runs, call)
      case Invalid(message) => TurnAway(call, message)
      case RaisedLookup(message) => Handled(Entry(call.name, false, message), ErrorOf(message), true)
      case RaisedOther(message) => Handled(Entry(call.name, false, message), ErrorOf(FAILED), true)
      case Refused(message, text) => Handled(Entry(call.name, false, message), Result(text), true)
      case Done(text) => Handled(Entry(call.name, true, ""), Result(text), true)
  }

  method HandleCall(env: Env, runs: seq<Run>, call: Call) returns (handled: Handled)
    ensures handled == Handle(env, runs, call)
  {
    var name := call.name;
    var ok, error, ran := false, "", false;
    var payload := ErrorOf("");
    if call.arguments.BadJson? {
      error := call.arguments.message;
      payload := ErrorOf(error);
    } else if name !in env.allowed {
      error := NOT_ALLOWED;
      payload := ErrorOf(error);
    } else if name !in env.registry {
      error := UnknownTool(name);
      payload := ErrorOf(error);
    } else {
      var tool := env.registry[name];
      if env.intent == Some(Read) && tool.writes && !tool.alwaysAvailable {
        error := BLOCKED;
        payload := ErrorOf(error);
      } else if call.arguments.NotADict? {
        error := call.arguments.message;
        payload := ErrorOf(FAILED);
      } else {
        var behaviour := env.behave(runs, call);
        ran := !behaviour.Invalid?;
        match behaviour {
          case Invalid(message) =>
            error := message;
            payload := ErrorOf(message);
          case RaisedLookup(message) =>
            error := message;
            payload := ErrorOf(message);
          case RaisedOther(message) =>
            error := message;
            payload := ErrorOf(FAILED);
          case Refused(message, text) =>
            error := message;
            payload := Result(text);
          case Done(text) =>
            ok := true;
            payload := Result(text);
        }
      }
    }
    handled := Handled(Entry(name, ok, error), payload, ran);
  }

  // ---------------------------------------------------------------------------------------
  // The rounds

  function CallsOf(items: seq<OutputItem>): seq<Call> {
    if items == [] then []
    else
      var rest := CallsOf(items[..|items| - 1]);
      var last := items[|items| - 1];
      if last.FunctionCall? then rest + [last.call] else rest
  }

  function TextOf(items: seq<OutputItem>): string {
    if items == [] then ""
    else
      var rest := TextOf(items[..|items| - 1]);
      var last := items[|items| - 1];
      if last.Message? then rest + last.text else rest
  }

  function AsProduced(items: seq<OutputItem>): (produced: seq<Item>)
    ensures |produced| == |items|
  {
    seq(|items|, i requires 0 <= i < |items| => Produced(items[i]))
  }

  function AsGiven(texts: seq<string>): (given: seq<Item>)
    ensures |given| == |texts|
  {
    seq(|texts|, i requires 0 <= i < |texts| => Given(texts[i]))
  }

  function AnswerOne(env: Env, call: Call, s: Loop): Loop {
    var handled := Handle(env, s.runs, call);
    s.(log := s.log + [handled.entry],
       runs := if handled.ran then s.runs + [Run(call)] else s.runs,
       transcript := s.transcript + [Answer(call.id, env.clamp(handled.payload))])
  }

  function AnswerAll(env: Env, calls: seq<Call>, s: Loop): Loop
    decreases |calls|
  {
    if calls == [] then s else AnswerAll(env, calls[1..], AnswerOne(env, calls[0], s))
  }

  /** The loop after a response that calls tools arrived, before its calls are answered. */
  function Received(response: Response, s: Loop): Loop {
    s.(requests := s.requests + [s.transcript],
       transcript := s.transcript + AsProduced(response.items),
       tokens := s.tokens + response.tokens)
  }

  /** The usage row of a tool round holds the entry of its last call only. */
  function CloseRound(response: Response, s: Loop): Loop {
    var last := if s.log == [] then [] else [s.log[|s.log| - 1]];
    s.(rows := s.rows + [UsageRow(|s.requests|, true, response.tokens, last)])
  }

  /** The round of a response that calls tools. */
  function ToolRound(env: Env, response: Response, s: Loop): Loop {
    CloseRound(response, AnswerAll(env, CallsOf(response.items), Received(response, s)))
  }

  /** Whether the model answers the loop's next request with tool calls. */
  predicate Asks(env: Env, k: nat, request: seq<Item>) {
    var response := env.model(k, request);
    response.Some? && CallsOf(response.value.items) != []
  }

  function Rounds(env: Env, s: Loop, left: nat): (Loop, Outcome)
    decreases left
  {
    if left == 0 then (s, LimitExceeded(OUT_OF_TURNS))
    else
      var response := env.model(|s.requests|, s.transcript);
      var sent := s.requests + [s.transcript];
      match response
      case None =>
        (s.(requests := sent, rows := s.rows + [UsageRow(|sent|, false, 0, s.log)]), Raised)
      case Some(r) =>
        if CallsOf(r.items) != [] then Rounds(env, ToolRound(env, r, s), left - 1)
        else
          (s.(requests := sent,
              tokens := s.tokens + r.tokens,
              rows := s.rows + [UsageRow(|sent|, true, r.tokens, s.log)]),
           Success(TextOf(r.items)))
  }

  function Start(given: seq<string>, runs: seq<Run>): Loop {
    Loop(AsGiven(given), [], runs, [], [], 0)
  }

  function Limit(limit: int): nat { if limit < 0 then 0 else limit }

  function Generate(env: Env, given: seq<string>, runs: seq<Run>, limit: int): (Loop, Outcome) {
    Rounds(env, Start(given, runs), Limit(limit))
  }

  /** The inner loop over the calls of one response. */
  method AnswerCalls(env: Env, calls: seq<Call>, s: Loop) returns (t: Loop, last: seq<Entry>)
    ensures t == AnswerAll(env, calls, s)
    ensures calls != [] ==> t.log != [] && last == [t.log[|t.log| - 1]]
  {
    var transcript, log, runs := s.transcript, s.log, s.runs;
    last := [];
    for i := 0 to |calls|
      invariant AnswerAll(env, calls[i..], s.(transcript := transcript, log := log, runs := runs))
             == AnswerAll(env, calls, s)
      invariant i > 0 ==> log != [] && last == [log[|log| - 1]]
    {
      assert calls[i..][1..] == calls[i + 1..];
      var handled := HandleCall(env, runs, calls[i]);
      log := log + [handled.entry];
      last := [handled.entry];
      if handled.ran {
        runs := runs + [Run(calls[i])];
      }
      transcript := transcript + [Answer(calls[i].id, env.clamp(handled.payload))];
    }
    t := s.(transcript := transcript, log := log, runs := runs);
  }

  /** One request; an outcome ends the loop. */
  method OneRound(env: Env, s: Loop, iteration: nat) returns (t: Loop, outcome: Option<Outcome>)
    requires iteration == |s.requests| + 1
    ensures outcome.None? <==> Asks(env, |s.requests|, s.transcript)
    ensures outcome.None? ==> t == ToolRound(env, env.model(|s.requests|, s.transcript).value, s)
    ensures outcome.Some? ==> (t, outcome.value) == Rounds(env, s, 1)
  {
    var response := env.model(|s.requests|, s.transcript);
    t := s.(requests := s.requests + [s.transcript]);
    if response.None? {
      t := t.(rows := t.rows + [UsageRow(iteration, false, 0, t.log)]);
      return t, Some(Raised);
    }
    var items, used := response.value.items, response.value.tokens;
    t := t.(tokens := t.tokens + used);
    var calls := CallsOf(items);
    if calls == [] {
      t := t.(rows := t.rows + [UsageRow(iteration, true, used, t.log)]);
      return t, Some(Success(TextOf(items)));
    }
    t := t.(transcript := t.transcript + AsProduced(items));
    AnswerAllCounts(env, calls, t);
    var last;
    t, last := AnswerCalls(env, calls, t);
    t := t.(rows := t.rows + [UsageRow(iteration, true, used, last)]);
    outcome := None;
  }

  method GenerateWithTools(env: Env, given: seq<string>, runs: seq<Run>, limit: int)
    returns (s: Loop, outcome: Outcome)
    ensures (s, outcome) == Generate(env, given, runs, limit)
  {
    s := Start(given, runs);
    var iterations := 0;
    while iterations < limit
      invariant 0 <= iterations <= Limit(limit)
      invariant |s.requests| == iterations
      invariant Generate(env, given, runs, limit) == Rounds(env, s, Limit(limit) - iterations)
    {
      iterations := iterations + 1;
      ghost var before := s;
      var ended;
      s, ended := OneRound(env, s, iterations);
      if ended.Some? {
        return s, ended.value;
      }
      AskedOnce(env, before);
    }
    return s, LimitExceeded(OUT_OF_TURNS);
  }

  lemma AskedOnce(env: Env, s: Loop)
    requires Asks(env, |s.requests|, s.transcript)
    ensures |ToolRound(env, env.model(|s.requests|, s.transcript).value, s).requests| == |s.requests| + 1
  {
    var response := env.model(|s.requests|, s.transcript).value;
    AnswerAllCounts(env, CallsOf(response.items), Received(response, s));
  }

  lemma {:induction false} AnswerAllCounts(env: Env, calls: seq<Call>, s: Loop)
    ensures AnswerAll(env, calls, s).requests == s.requests
    ensures AnswerAll(env, calls, s).rows == s.rows
    ensures AnswerAll(env, calls, s).tokens == s.tokens
    ensures |AnswerAll(env, calls, s).log| == |s.log| + |calls|
    ensures s.log <= AnswerAll(env, calls, s).log
    ensures s.transcript <= AnswerAll(env, calls, s).transcript
    decreases |calls|
  {
    if calls != [] {
      AnswerAllCounts(env, calls[1..], AnswerOne(env, calls[0], s));
    }
  }

  // ---------------------------------------------------------------------------------------
  // Choosing the tools, and the second pass

  predicate FeatureAllowed(feature: Option<string>, org: Org) {
    feature.None? || feature.value == "" || feature.value in org.features
  }

  predicate OfferedOn(tool: Tool, intent: Intent, org: Org) {
    FeatureAllowed(tool.feature, org) && (tool.alwaysAvailable || !tool.writes || intent == Write)
  }

  method ListToolsForTurn(intent: Intent, org: Org) returns (selected: seq<Tool>)
    ensures forall tool :: tool in selected <==> tool in org.tools && OfferedOn(tool, intent, org)
  {
    selected := [];
    for i := 0 to |org.tools|
      invariant forall tool :: tool in selected <==> tool in org.tools[..i] && OfferedOn(tool, intent, org)
    {
      var tool := org.tools[i];
      assert org.tools[..i + 1] == org.tools[..i] + [tool];
      if FeatureAllowed(tool.feature, org) {
        if tool.alwaysAvailable {
          selected := selected + [tool];
        } else if !tool.writes {
          selected := selected + [tool];
        } else if tool.writes && intent == Write {
          selected := selected + [tool];
        }
      }
    }
  }

  function Names(tools: seq<Tool>): set<string> { set tool | tool in tools :: tool.name }

  function OfferedNames(intent: Intent, org: Org): set<string> {
    set tool | tool in org.tools && OfferedOn(tool, intent, org) :: tool.name
  }

  /** The names `_select_tools` leaves allowed: an explicit list, the organization's, or all. */
  function Selected(tools: Option<seq<Tool>>, intent: Intent, org: Option<Org>,
                    registry: map<string, Tool>): set<string> {
    if tools.Some? then Names(tools.value)
    else if org.Some? then OfferedNames(intent, org.value)
    else registry.Keys
  }

  method SelectTools(tools: Option<seq<Tool>>, intent: Intent, org: Option<Org>, registry: map<string, Tool>)
    returns (allowed: set<string>)
    ensures allowed == Selected(tools, intent, org, registry)
  {
    if tools.Some? {
      allowed := Names(tools.value);
    } else if org.Some? {
      var selected := ListToolsForTurn(intent, org.value);
      allowed := Names(selected);
    } else {
      allowed := registry.Keys;
    }
  }

  predicate HasBlocked(log: seq<Entry>) { exists k :: 0 <= k < |log| && log[k].error == BLOCKED }

  method WriteToolBlocked(log: seq<Entry>) returns (blocked: bool)
    ensures blocked == HasBlocked(log)
  {
    for i := 0 to |log|
      invariant !HasBlocked(log[..i])
    {
      if log[i].error == BLOCKED {
        return true;
      }
      assert forall k :: 0 <= k < i ==> log[..i][k].error != BLOCKED;
    }
    assert log[..|log|] == log;
    return false;
  }

  /** What a turn is given before its intent selects the tools. */
  datatype Request = Request(
    tools: Option<seq<Tool>>,
    org: Option<Org>,
    base: Env,                                         // its tools and intent are replaced
    again: (nat, seq<Item>) -> Option<Response>,       // the model on the second pass
    given: seq<string>,
    givenAgain: seq<string>,                           // with the roster write context
    limit: int)

  function EnvOf(q: Request, intent: Intent, model: (nat, seq<Item>) -> Option<Response>): Env {
    q.base.(allowed := Selected(q.tools, intent, q.org, q.base.registry), intent := Some(intent), model := model)
  }

  function FirstPass(q: Request, intent: Intent): (Loop, Outcome) {
    Generate(EnvOf(q, intent, q.base.model), q.given, [], q.limit)
  }

  /** A pass that raises ends the turn: its exception leaves before the retry is considered. */
  predicate Retries(q: Request, intent: Intent) {
    intent == Read && !FirstPass(q, intent).1.Raised? && HasBlocked(FirstPass(q, intent).0.log)
  }

  function SecondPass(q: Request): (Loop, Outcome) {
    Generate(EnvOf(q, Write, q.again), q.givenAgain, FirstPass(q, Read).0.runs, q.limit)
  }

  method RunModel(q: Request, intent: Intent) returns (s: Loop, outcome: Outcome, passes: nat)
    ensures (s, outcome) == if Retries(q, intent) then SecondPass(q) else FirstPass(q, intent)
    ensures passes == if Retries(q, intent) then 2 else 1
  {
    var allowed := SelectTools(q.tools, intent, q.org, q.base.registry);
    s, outcome := GenerateWithTools(
      q.base.(allowed := allowed, intent := Some(intent)), q.given, [], q.limit);
    assert q.base.(allowed := allowed, intent := Some(intent)) == EnvOf(q, intent, q.base.model);
    passes := 1;
    if outcome.Raised? {
      return;
    }
    var blocked := WriteToolBlocked(s.log);
    if intent == Read && blocked {
      allowed := SelectTools(q.tools, Write, q.org, q.base.registry);
      s, outcome := GenerateWithTools(
        q.base.(allowed := allowed, intent := Some(Write), model := q.again), q.givenAgain, s.runs, q.limit);
      passes := 2;
    }
  }
}
