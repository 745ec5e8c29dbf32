/**
 What the model is told about each of its calls, what is logged, and what every request contains,
 told from the model's responses and the tools' behaviour alone.
 */
module ToolLoopEffects {
  import opened Wrappers
  import opened ToolLoop
  import opened ToolLoopSafety

  // ---------------------------------------------------------------------------------------
  // One call

  const NOT_FOR_ORGANIZATION := "Tool not available for this organization."
  const NOT_FOR_TURN := "Tool not available for this turn."
  const EXECUTION_FAILED := "Tool execution failed."

  function Unknown(name: string): string { "'Unknown tool: " + name + "'" }

  /** The guard of a read turn: write tools wait, unless they are always available. */
  predicate Waits(env: Env, tool: Tool) { env.intent == Some(Read) && tool.writes && !tool.alwaysAvailable }

  /** Entry and answer of a failure: what is logged and what the model is told. */
  predicate Failure(entry: Entry, told: Payload, logged: string, said: string) {
    !entry.ok && entry.error == logged && told.ErrorOf? && told.message == said
  }

  /** What is logged and answered for a call that is asked after `runs`. */
  ghost predicate Answers(env: Env, runs: seq<Run>, call: Call, entry: Entry, told: Payload) {
    && entry.name == call.name
    && if call.arguments.BadJson? then Failure(entry, told, call.arguments.message, call.arguments.message)
       else if call.name !in env.allowed then
         Failure(entry, told, NOT_FOR_ORGANIZATION, NOT_FOR_ORGANIZATION)
       else if call.name !in env.registry then
         Failure(entry, told, Unknown(call.name), Unknown(call.name))
       else if Waits(env, env.registry[call.name]) then
         Failure(entry, told, NOT_FOR_TURN, NOT_FOR_TURN)
       else if call.arguments.NotADict? then
         Failure(entry, told, call.arguments.message, EXECUTION_FAILED)
       else Reports(env.behave(runs, call), entry, told)
  }

  /** The same for a call whose tool is asked. */
  predicate Reports(behaviour: Behaviour, entry: Entry, told: Payload) {
    match behaviour
    case Invalid(message) => Failure(entry, told, message, message)
    case RaisedLookup(message) => Failure(entry, told, message, message)
    case RaisedOther(message) => Failure(entry, told, message, EXECUTION_FAILED)
    case Refused(message, text) => !entry.ok && entry.error == message && told == Result(text)
    case Done(text) => entry.ok && entry.error == "" && told == Result(text)
  }

  lemma HandledIsAnswered(env: Env, runs: seq<Run>, call: Call)
    ensures var handled := Handle(env, runs, call); Answers(env, runs, call, handled.entry, handled.payload)
  {
  }

  // ---------------------------------------------------------------------------------------
  // Every call of a pass

  /** The tools that were run by the given calls, in order, after `runs`. */
  ghost function RunBy(env: Env, runs: seq<Run>, calls: seq<Call>): seq<Run> {
    if calls == [] then runs
    else
      var before := RunBy(env, runs, calls[..|calls| - 1]);
      before + if Admitted(env, before, calls[|calls| - 1]) then [Run(calls[|calls| - 1])] else []
  }

  lemma {:induction false} RunByIsRunsAfter(env: Env, runs: seq<Run>, calls: seq<Call>)
    ensures RunBy(env, runs, calls) == RunsAfter(env, runs, calls)
  {
    if calls != [] {
      RunByIsRunsAfter(env, runs, calls[..|calls| - 1]);
      RanMeansAdmitted(env, RunBy(env, runs, calls[..|calls| - 1]), calls[|calls| - 1]);
    }
  }

  lemma {:induction false} AnswerAt(env: Env, runs: seq<Run>, calls: seq<Call>, k: nat)
    requires k < |calls|
    ensures AnswersFor(env, runs, calls)[k] ==
            Answer(calls[k].id, env.clamp(Handle(env, RunsAfter(env, runs, calls[..k]), calls[k]).payload))
  {
    if k < |calls| - 1 {
      var short := calls[..|calls| - 1];
      AnswerAt(env, runs, short, k);
      assert short[..k] == calls[..k];
    }
  }

  /** Over a whole pass the k-th call of the transcript has the k-th log entry and the k-th answer,
      which carries its id; every admitted call runs, and no other. */
  lemma EveryCallIsAnswered(env: Env, given: seq<string>, runs: seq<Run>, limit: int, k: nat)
    requires k < |CallsIn(Generate(env, given, runs, limit).0.transcript)|
    ensures var s := Generate(env, given, runs, limit).0;
            var calls, answers := CallsIn(s.transcript), AnswersIn(s.transcript);
            && |s.log| == |answers| == |calls|
            && s.runs == RunBy(env, runs, calls)
            && exists told ::
                 && answers[k] == Answer(calls[k].id, env.clamp(told))
                 && Answers(env, RunBy(env, runs, calls[..k]), calls[k], s.log[k], told)
  {
    var calls := CallsIn(Generate(env, given, runs, limit).0.transcript);
    TheLogReplaysTheTranscript(env, given, runs, limit);
    RunByIsRunsAfter(env, runs, calls);
    RunByIsRunsAfter(env, runs, calls[..k]);
    EntryAt(env, runs, calls, k);
    AnswerAt(env, runs, calls, k);
    HandledIsAnswered(env, RunsAfter(env, runs, calls[..k]), calls[k]);
  }

  // ---------------------------------------------------------------------------------------
  // What the model reads and says

  lemma {:induction false} CallsAreRead(a: seq<OutputItem>, b: seq<OutputItem>)
    ensures CallsOf(a + b) == CallsOf(a) + CallsOf(b)
  {
    if b == [] {
      assert a + b == a;
    } else {
      CallsAreRead(a, b[..|b| - 1]);
      assert (a + b)[..|a + b| - 1] == a + b[..|b| - 1];
    }
  }

  lemma {:induction false} TextIsRead(a: seq<OutputItem>, b: seq<OutputItem>)
    ensures TextOf(a + b) == TextOf(a) + TextOf(b)
  {
    if b == [] {
      assert a + b == a;
    } else {
      TextIsRead(a, b[..|b| - 1]);
      assert (a + b)[..|a + b| - 1] == a + b[..|b| - 1];
    }
  }

  /** The calls of a response are its function calls, and its text is its messages, in order. */
  lemma ResponseIsRead(a: seq<OutputItem>, b: seq<OutputItem>, item: OutputItem)
    ensures CallsOf(a + b) == CallsOf(a) + CallsOf(b) && TextOf(a + b) == TextOf(a) + TextOf(b)
    ensures CallsOf([item]) == (if item.FunctionCall? then [item.call] else [])
    ensures TextOf([item]) == (if item.Message? then item.text else "")
  {
    CallsAreRead(a, b);
    TextIsRead(a, b);
    assert [item][..0] == [];
  }

  /** From position `from` on, the answers to these calls. */
  ghost predicate AnswersFrom(items: seq<Item>, from: nat, calls: seq<Call>) {
    && |items| == from + |calls|
    && forall j | from <= j < |items| :: items[j].Answer? && items[j].callId == calls[j - from].id
  }

  /** The items of `request`, then those of the response, then one answer for each of its calls. */
  ghost predicate Continues(request: seq<Item>, outputs: seq<OutputItem>, next: seq<Item>) {
    && AnswersFrom(next, |request| + |outputs|, CallsOf(outputs))
    && request <= next
    && forall j | |request| <= j < |request| + |outputs| :: next[j] == Produced(outputs[j - |request|])
  }

  lemma {:induction false} AnswersAreAppended(env: Env, calls: seq<Call>, s: Loop)
    ensures s.transcript <= AnswerAll(env, calls, s).transcript
    ensures AnswersFrom(AnswerAll(env, calls, s).transcript, |s.transcript|, calls)
    decreases |calls|
  {
    if calls != [] {
      AnswersAreAppended(env, calls[1..], AnswerOne(env, calls[0], s));
    }
  }

  lemma ToolRoundContinues(env: Env, response: Response, s: Loop)
    ensures Continues(s.transcript, response.items, ToolRound(env, response, s).transcript)
  {
    var calls, received := CallsOf(response.items), Received(response, s);
    AnswersAreAppended(env, calls, received);
    var next := ToolRound(env, response, s).transcript;
    assert |received.transcript| == |s.transcript| + |response.items|;
    forall j | |s.transcript| <= j < |received.transcript|
      ensures next[j] == Produced(response.items[j - |s.transcript|])
    {
      assert next[j] == received.transcript[j];
    }
  }

  lemma {:induction false} RequestsContinue(env: Env, s: Loop, left: nat, k: nat)
    requires |s.requests| <= k < |Rounds(env, s, left).0.requests|
    ensures var requests := Rounds(env, s, left).0.requests;
            && (k == |s.requests| ==> requests[k] == s.transcript)
            && (k + 1 < |requests| ==>
                  && env.model(k, requests[k]).Some?
                  && Continues(requests[k], env.model(k, requests[k]).value.items, requests[k + 1]))
    decreases left
  {
    if left > 0 && Asks(env, |s.requests|, s.transcript) {
      var n := |s.requests|;
      var response := env.model(n, s.transcript).value;
      var t := ToolRound(env, response, s);
      FirstRequest(env, s, left);
      ToolRoundContinues(env, response, s);
      if k > n {
        RequestsContinue(env, t, left - 1, k);
      } else if k + 1 < |Rounds(env, s, left).0.requests| {
        RequestsContinue(env, t, left - 1, n + 1);
      }
    }
  }

  /** The first request is what was given; each later one is the one before it with the response
      and the answers to its calls. There are at most as many as the limit, none if it is not
      positive, and running out of them is said in these words. */
  lemma RequestsAre(env: Env, given: seq<string>, runs: seq<Run>, limit: int, k: nat)
    ensures var (s, outcome) := Generate(env, given, runs, limit);
            && |s.requests| <= (if limit > 0 then limit else 0)
            && (outcome.LimitExceeded? ==>
                  && |s.requests| == (if limit > 0 then limit else 0)
                  && outcome.text == "I could not complete that request within the tool limit.")
            && (limit > 0 ==> |s.requests| > 0)
            && (|s.requests| > 0 ==>
                  && |s.requests[0]| == |given|
                  && forall i | 0 <= i < |given| :: s.requests[0][i] == Given(given[i]))
            && (k + 1 < |s.requests| ==>
                  && env.model(k, s.requests[k]).Some?
                  && Continues(s.requests[k], env.model(k, s.requests[k]).value.items, s.requests[k + 1]))
  {
    var start, left := Start(given, runs), Limit(limit);
    RoundsAreBounded(env, start, left);
    RequestsExtend(env, start, left);
    LimitSays(env, start, left);
    if |Rounds(env, start, left).0.requests| > 0 {
      RequestsContinue(env, start, left, 0);
    }
    if k + 1 < |Rounds(env, start, left).0.requests| {
      RequestsContinue(env, start, left, k);
    }
  }

  lemma {:induction false} LimitSays(env: Env, s: Loop, left: nat)
    ensures var outcome := Rounds(env, s, left).1;
            outcome.LimitExceeded? ==> outcome.text == "I could not complete that request within the tool limit."
    decreases left
  {
    if left > 0 && Asks(env, |s.requests|, s.transcript) {
      LimitSays(env, ToolRound(env, env.model(|s.requests|, s.transcript).value, s), left - 1);
    }
  }

  // ---------------------------------------------------------------------------------------
  // The usage rows

  /** The row of the k-th request: its number, whether the model answered, and its tokens. */
  ghost predicate Books(env: Env, s: Loop, k: nat)
    requires k < |s.requests| && k < |s.rows|
  {
    var response := env.model(k, s.requests[k]);
    && s.rows[k].iteration == k + 1
    && s.rows[k].ok == response.Some?
    && s.rows[k].tokens == (if response.None? then 0 else response.value.tokens)
  }

  lemma {:induction false} RowsBook(env: Env, s: Loop, left: nat, k: nat)
    requires |s.rows| == |s.requests| && |s.requests| <= k
    ensures var t := Rounds(env, s, left).0;
            && |t.rows| == |t.requests|
            && s.rows <= t.rows
            && (k < |t.rows| ==> Books(env, t, k))
    decreases left
  {
    if left > 0 && Asks(env, |s.requests|, s.transcript) {
      var n := |s.requests|;
      var response := env.model(n, s.transcript).value;
      var t := ToolRound(env, response, s);
      FirstRequest(env, s, left);
      ToolRoundRow(env, response, s);
      RowsBook(env, t, left - 1, if k > n then k else n + 1);
      assert Rounds(env, s, left) == Rounds(env, t, left - 1);
      if k == n {
        assert Rounds(env, s, left).0.rows[n] == t.rows[n];
      }
    }
  }

  /** Each request has its own usage row, in order. */
  lemma EveryRequestIsBooked(env: Env, given: seq<string>, runs: seq<Run>, limit: int, k: nat)
    ensures var s := Generate(env, given, runs, limit).0;
            |s.rows| == |s.requests| && (k < |s.rows| ==> Books(env, s, k))
  {
    RowsBook(env, Start(given, runs), Limit(limit), k);
  }

  // ---------------------------------------------------------------------------------------
  // What a turn offers

  /** With its own selection an organization offers on a write turn every tool whose feature it
      has or that needs none, and on a read turn those of them that do not wait. */
  lemma OfferedNamesAre(q: Request, name: string)
    requires q.tools.None? && q.org.Some?
    ensures var org := q.org.value;
            && (name in Selected(q.tools, Write, q.org, q.base.registry) <==>
                  exists tool <- org.tools :: tool.name == name && HasFeature(org, tool))
            && (name in Selected(q.tools, Read, q.org, q.base.registry) <==>
                  exists tool <- org.tools ::
                    tool.name == name && HasFeature(org, tool) && (!tool.writes || tool.alwaysAvailable))
  {
  }

  predicate HasFeature(org: Org, tool: Tool) {
    tool.feature == None || tool.feature == Some("") || tool.feature.value in org.features
  }

  /** An explicit list of tools goes before the organization's, and without either every registered
      tool is offered. */
  lemma ExplicitToolsWin(q: Request, intent: Intent, name: string)
    ensures q.tools.Some? ==>
              (name in Selected(q.tools, intent, q.org, q.base.registry) <==>
                 exists tool <- q.tools.value :: tool.name == name)
    ensures q.tools.None? && q.org.None? ==>
              (name in Selected(q.tools, intent, q.org, q.base.registry) <==> name in q.base.registry)
  {
  }

  // ---------------------------------------------------------------------------------------
  // The retry

  /** The retry starts over from the extended context, with the second model, a write intent and the
      tools of a write turn; what the first pass ran it has run already. */
  lemma TheRetryStartsOver(q: Request, k: nat)
    requires Retries(q, Read)
    ensures var s := SecondPass(q).0;
            var calls := CallsIn(s.transcript);
            var env := q.base.(allowed := Selected(q.tools, Write, q.org, q.base.registry), intent := Some(Write));
            && (q.limit > 0 ==>
                  && |s.requests| > 0 && |s.requests[0]| == |q.givenAgain|
                  && forall i | 0 <= i < |q.givenAgain| :: s.requests[0][i] == Given(q.givenAgain[i]))
            && (k + 1 < |s.requests| ==>
                  && q.again(k, s.requests[k]).Some?
                  && Continues(s.requests[k], q.again(k, s.requests[k]).value.items, s.requests[k + 1]))
            && (k < |calls| ==>
                  && k < |s.log| && s.runs == RunBy(env, FirstPass(q, Read).0.runs, calls)
                  && exists told ::
                       Answers(env, RunBy(env, FirstPass(q, Read).0.runs, calls[..k]), calls[k], s.log[k], told))
  {
    var runs, s := FirstPass(q, Read).0.runs, SecondPass(q).0;
    var env := q.base.(allowed := Selected(q.tools, Write, q.org, q.base.registry), intent := Some(Write));
    var again := env.(model := q.again);
    var calls := CallsIn(s.transcript);
    RequestsAre(again, q.givenAgain, runs, q.limit, k);
    if k < |calls| {
      EveryCallIsAnswered(again, q.givenAgain, runs, q.limit, k);
      SameRuns(again, env, runs, calls);
      SameRuns(again, env, runs, calls[..k]);
      var told :| Answers(again, RunBy(again, runs, calls[..k]), calls[k], s.log[k], told);
      SameAnswers(again, env, RunBy(env, runs, calls[..k]), calls[k], s.log[k], told);
    }
  }

  /** What a call is answered and which tools run does not depend on the model. */
  lemma SameAnswers(a: Env, b: Env, runs: seq<Run>, call: Call, entry: Entry, told: Payload)
    requires a == b.(model := a.model)
    requires Answers(a, runs, call, entry, told)
    ensures Answers(b, runs, call, entry, told)
  {
    assert a.allowed == b.allowed && a.registry == b.registry && a.behave == b.behave && a.intent == b.intent;
  }

  lemma {:induction false} SameRuns(a: Env, b: Env, runs: seq<Run>, calls: seq<Call>)
    requires a == b.(model := a.model)
    ensures RunBy(a, runs, calls) == RunBy(b, runs, calls)
  {
    if calls != [] {
      SameRuns(a, b, runs, calls[..|calls| - 1]);
    }
  }
}
