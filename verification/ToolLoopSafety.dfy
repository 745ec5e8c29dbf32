/** What every run of the tool loop keeps, whatever the model and the tools answer. */
module ToolLoopSafety {
  import opened Wrappers
  import opened ToolLoop

  // ---------------------------------------------------------------------------------------
  // The transcript owes nothing at any request

  /** Reads a transcript item by item and keeps the queue of calls not yet answered. None when
      an answer is not the one due next, or the user speaks while an answer is due. */
  function Owed(items: seq<Item>): Option<seq<string>> {
    if items == [] then Some([])
    else
      var before := Owed(items[..|items| - 1]);
      if before.None? then None
      else
        match items[|items| - 1]
        case Given(_) => if before.value == [] then before else None
        case Produced(output) => if output.FunctionCall? then Some(before.value + [output.call.id]) else before
        case Answer(id, _) =>
          if before.value != [] && before.value[0] == id then Some(before.value[1..]) else None
  }

  predicate WellFormed(items: seq<Item>) { Owed(items) == Some([]) }

  function Ids(calls: seq<Call>): (ids: seq<string>)
    ensures |ids| == |calls|
  {
    seq(|calls|, i requires 0 <= i < |calls| => calls[i].id)
  }

  lemma OwedAfter(items: seq<Item>, item: Item)
    ensures (items + [item])[..|items|] == items
  {
  }

  lemma {:induction false} GivenOwesNothing(texts: seq<string>)
    ensures WellFormed(AsGiven(texts))
  {
    if texts != [] {
      var short := texts[..|texts| - 1];
      GivenOwesNothing(short);
      assert AsGiven(texts)[..|texts| - 1] == AsGiven(short);
    }
  }

  lemma {:induction false} ProducedOwesItsCalls(items: seq<Item>, outputs: seq<OutputItem>)
    requires WellFormed(items)
    ensures Owed(items + AsProduced(outputs)) == Some(Ids(CallsOf(outputs)))
  {
    if outputs == [] {
      assert items + AsProduced(outputs) == items;
    } else {
      var short, last := outputs[..|outputs| - 1], outputs[|outputs| - 1];
      ProducedOwesItsCalls(items, short);
      OwedAfter(items + AsProduced(short), Produced(last));
      assert items + AsProduced(outputs) == items + AsProduced(short) + [Produced(last)];
      if last.FunctionCall? {
        assert Ids(CallsOf(outputs)) == Ids(CallsOf(short)) + [last.call.id];
      }
    }
  }

  lemma {:induction false} AnswersPayTheDebt(env: Env, calls: seq<Call>, s: Loop)
    requires Owed(s.transcript) == Some(Ids(calls))
    ensures WellFormed(AnswerAll(env, calls, s).transcript)
    decreases |calls|
  {
    if calls != [] {
      var one := AnswerOne(env, calls[0], s);
      OwedAfter(s.transcript, one.transcript[|s.transcript|]);
      assert Ids(calls)[1..] == Ids(calls[1..]);
      AnswersPayTheDebt(env, calls[1..], one);
    }
  }

  ghost predicate AllWellFormed(requests: seq<seq<Item>>) {
    forall k :: 0 <= k < |requests| ==> WellFormed(requests[k])
  }

  lemma ToolRoundStaysWellFormed(env: Env, response: Response, s: Loop)
    requires WellFormed(s.transcript)
    ensures WellFormed(ToolRound(env, response, s).transcript)
  {
    var calls := CallsOf(response.items);
    ProducedOwesItsCalls(s.transcript, response.items);
    AnswersPayTheDebt(env, calls, Received(response, s));
  }

  lemma ToolRoundShape(env: Env, response: Response, s: Loop)
    ensures var t := ToolRound(env, response, s);
            && t.requests == s.requests + [s.transcript]
            && s.transcript + AsProduced(response.items) <= t.transcript
            && |t.log| == |s.log| + |CallsOf(response.items)|
            && t.tokens == s.tokens + response.tokens
            && |t.rows| == |s.rows| + 1 && t.rows[..|s.rows|] == s.rows
  {
    AnswerAllCounts(env, CallsOf(response.items), Received(response, s));
  }

  lemma {:induction false} RoundsStayWellFormed(env: Env, s: Loop, left: nat)
    requires WellFormed(s.transcript) && AllWellFormed(s.requests)
    ensures AllWellFormed(Rounds(env, s, left).0.requests)
    ensures WellFormed(Rounds(env, s, left).0.transcript)
    decreases left
  {
    if left > 0 && Asks(env, |s.requests|, s.transcript) {
      var response := env.model(|s.requests|, s.transcript).value;
      ToolRoundStaysWellFormed(env, response, s);
      ToolRoundShape(env, response, s);
      RoundsStayWellFormed(env, ToolRound(env, response, s), left - 1);
    }
  }

  /** At every request each earlier function call has exactly one output, carrying its call id,
      and the outputs come in the order of the calls. */
  lemma EveryRequestIsWellFormed(env: Env, given: seq<string>, runs: seq<Run>, limit: int)
    ensures AllWellFormed(Generate(env, given, runs, limit).0.requests)
    ensures WellFormed(Generate(env, given, runs, limit).0.transcript)
  {
    GivenOwesNothing(given);
    RoundsStayWellFormed(env, Start(given, runs), Limit(limit));
  }

  // ---------------------------------------------------------------------------------------
  // The loop stops, and how it stopped says what the model answered

  /** What the requests of a loop say about its outcome, from the request numbered `from` on. */
  ghost predicate Explains(env: Env, requests: seq<seq<Item>>, from: nat, left: nat, outcome: Outcome) {
    && from <= |requests| <= from + left
    && (forall k :: from <= k < |requests| - 1 ==> Asks(env, k, requests[k]))
    && (outcome.LimitExceeded? ==> |requests| == from + left)
    && (|requests| > from ==> var last := |requests| - 1; Ends(env, last, requests[last], outcome))
    && (|requests| == from ==> outcome.LimitExceeded?)
  }

  /** The last request, numbered k, and the outcome it leads to. */
  ghost predicate Ends(env: Env, k: nat, request: seq<Item>, outcome: Outcome) {
    var response := env.model(k, request);
    && (outcome.Raised? <==> response.None?)
    && (outcome.LimitExceeded? <==> Asks(env, k, request))
    && (outcome.Success? ==> outcome.text == TextOf(response.value.items))
  }

  ghost predicate Growing(requests: seq<seq<Item>>, from: nat) {
    forall k :: from < k < |requests| ==> requests[k - 1] < requests[k]
  }

  lemma {:induction false} RequestsExtend(env: Env, s: Loop, left: nat)
    ensures var t := Rounds(env, s, left).0;
            && s.requests <= t.requests
            && (left > 0 ==> s.requests + [s.transcript] <= t.requests)
            && |t.rows| - |s.rows| == |t.requests| - |s.requests|
    decreases left
  {
    if left > 0 && Asks(env, |s.requests|, s.transcript) {
      var response := env.model(|s.requests|, s.transcript).value;
      ToolRoundShape(env, response, s);
      RequestsExtend(env, ToolRound(env, response, s), left - 1);
    }
  }

  lemma {:induction false} RequestsGrow(env: Env, s: Loop, left: nat)
    ensures Growing(Rounds(env, s, left).0.requests, |s.requests|)
    decreases left
  {
    if left > 0 && Asks(env, |s.requests|, s.transcript) {
      var n := |s.requests|;
      var response := env.model(n, s.transcript).value;
      var t := ToolRound(env, response, s);
      var requests := Rounds(env, s, left).0.requests;
      ToolRoundShape(env, response, s);
      RequestsExtend(env, t, left - 1);
      RequestsGrow(env, t, left - 1);
      AskingMeansOutput(response.items);
      assert requests == Rounds(env, t, left - 1).0.requests;
      assert requests[n] == t.requests[n] == s.transcript;
      assert |requests| > n + 1 ==> requests[n + 1] == t.transcript;
    }
  }

  lemma {:induction false} RoundsAreBounded(env: Env, s: Loop, left: nat)
    ensures var (t, outcome) := Rounds(env, s, left);
            && |s.requests| <= |t.requests| <= |s.requests| + left
            && (outcome.LimitExceeded? ==> |t.requests| == |s.requests| + left)
            && (|t.requests| == |s.requests| ==> outcome.LimitExceeded?)
    decreases left
  {
    if left > 0 && Asks(env, |s.requests|, s.transcript) {
      var response := env.model(|s.requests|, s.transcript).value;
      ToolRoundShape(env, response, s);
      RoundsAreBounded(env, ToolRound(env, response, s), left - 1);
    }
  }

  lemma {:induction false} AllButTheLastAsk(env: Env, s: Loop, left: nat, k: nat)
    requires |s.requests| <= k < |Rounds(env, s, left).0.requests| - 1
    ensures Asks(env, k, Rounds(env, s, left).0.requests[k])
    decreases left
  {
    if left > 0 && Asks(env, |s.requests|, s.transcript) {
      var n := |s.requests|;
      var response := env.model(n, s.transcript).value;
      var t := ToolRound(env, response, s);
      ToolRoundShape(env, response, s);
      if k > n {
        AllButTheLastAsk(env, t, left - 1, k);
      } else {
        RequestsExtend(env, t, left - 1);
        assert Rounds(env, t, left - 1).0.requests[n] == t.requests[n] == s.transcript;
      }
    }
  }

  lemma {:induction false} TheLastRequestEnds(env: Env, s: Loop, left: nat)
    ensures var (t, outcome) := Rounds(env, s, left);
            var last := |t.requests| - 1;
            last >= |s.requests| ==> Ends(env, last, t.requests[last], outcome)
    decreases left
  {
    if left > 0 && Asks(env, |s.requests|, s.transcript) {
      var response := env.model(|s.requests|, s.transcript).value;
      ToolRoundShape(env, response, s);
      RoundsAreBounded(env, ToolRound(env, response, s), left - 1);
      TheLastRequestEnds(env, ToolRound(env, response, s), left - 1);
    }
  }

  lemma AskingMeansOutput(items: seq<OutputItem>)
    requires CallsOf(items) != []
    ensures |items| > 0
  {
  }

  /** At most `limit` requests, each extending the one before it; the outcome is a limit
      overrun exactly when every request was answered with tool calls, a failure exactly when
      the last request raised, and a success exactly when its answer called no tool. */
  lemma TheLoopStops(env: Env, given: seq<string>, runs: seq<Run>, limit: int)
    ensures var (s, outcome) := Generate(env, given, runs, limit);
            && Explains(env, s.requests, 0, Limit(limit), outcome)
            && Growing(s.requests, 0)
            && |s.rows| == |s.requests|
  {
    var start, left := Start(given, runs), Limit(limit);
    RoundsAreBounded(env, start, left);
    TheLastRequestEnds(env, start, left);
    var requests := Rounds(env, start, left).0.requests;
    forall k | 0 <= k < |requests| - 1 ensures Asks(env, k, requests[k]) {
      AllButTheLastAsk(env, start, left, k);
    }
    RequestsGrow(env, Start(given, runs), Limit(limit));
    RequestsExtend(env, Start(given, runs), Limit(limit));
  }

  // ---------------------------------------------------------------------------------------
  // The rounds replay the calls one by one

  function CallsIn(items: seq<Item>): seq<Call> {
    if items == [] then []
    else
      var rest := CallsIn(items[..|items| - 1]);
      var last := items[|items| - 1];
      if last.Produced? && last.output.FunctionCall? then rest + [last.output.call] else rest
  }

  function AnswersIn(items: seq<Item>): seq<Item> {
    if items == [] then []
    else
      var rest := AnswersIn(items[..|items| - 1]);
      if items[|items| - 1].Answer? then rest + [items[|items| - 1]] else rest
  }

  /** The calls that ran, when the given calls are handled one after the other. */
  function RunsAfter(env: Env, runs: seq<Run>, calls: seq<Call>): seq<Run> {
    if calls == [] then runs
    else
      var before := RunsAfter(env, runs, calls[..|calls| - 1]);
      var last := calls[|calls| - 1];
      if Handle(env, before, last).ran then before + [Run(last)] else before
  }

  /** The log entries of handling the given calls one after the other. */
  function EntriesFor(env: Env, runs: seq<Run>, calls: seq<Call>): (entries: seq<Entry>)
    ensures |entries| == |calls|
  {
    if calls == [] then []
    else
      var short, last := calls[..|calls| - 1], calls[|calls| - 1];
      EntriesFor(env, runs, short) + [Handle(env, RunsAfter(env, runs, short), last).entry]
  }

  /** The answers to the given calls, handled one after the other. */
  function AnswersFor(env: Env, runs: seq<Run>, calls: seq<Call>): (answers: seq<Item>)
    ensures |answers| == |calls|
  {
    if calls == [] then []
    else
      var short, last := calls[..|calls| - 1], calls[|calls| - 1];
      AnswersFor(env, runs, short)
      + [Answer(last.id, env.clamp(Handle(env, RunsAfter(env, runs, short), last).payload))]
  }

  /** The log, the answers and the tools that ran are those of handling the calls one after
      the other, starting after `runs`. */
  ghost predicate Replays(env: Env, runs: seq<Run>, s: Loop, calls: seq<Call>) {
    && s.runs == RunsAfter(env, runs, calls)
    && s.log == EntriesFor(env, runs, calls)
    && AnswersIn(s.transcript) == AnswersFor(env, runs, calls)
  }

  lemma {:induction false} EntryAt(env: Env, runs: seq<Run>, calls: seq<Call>, k: nat)
    requires k < |calls|
    ensures EntriesFor(env, runs, calls)[k] == Handle(env, RunsAfter(env, runs, calls[..k]), calls[k]).entry
  {
    if k < |calls| - 1 {
      var short := calls[..|calls| - 1];
      EntryAt(env, runs, short, k);
      assert short[..k] == calls[..k];
    }
  }

  lemma {:induction false} AnswerOneReplays(env: Env, runs: seq<Run>, s: Loop, done: seq<Call>, call: Call)
    requires Replays(env, runs, s, done)
    ensures Replays(env, runs, AnswerOne(env, call, s), done + [call])
    ensures CallsIn(AnswerOne(env, call, s).transcript) == CallsIn(s.transcript)
  {
  }

  lemma {:induction false} AnswerAllReplays(env: Env, runs: seq<Run>, s: Loop, done: seq<Call>, calls: seq<Call>)
    requires Replays(env, runs, s, done)
    ensures Replays(env, runs, AnswerAll(env, calls, s), done + calls)
    ensures CallsIn(AnswerAll(env, calls, s).transcript) == CallsIn(s.transcript)
    decreases |calls|
  {
    if calls == [] {
      assert done + calls == done;
    } else {
      AnswerOneReplays(env, runs, s, done, calls[0]);
      AnswerAllReplays(env, runs, AnswerOne(env, calls[0], s), done + [calls[0]], calls[1..]);
      assert done + [calls[0]] + calls[1..] == done + calls;
    }
  }

  lemma {:induction false} ProducedAddsItsCalls(items: seq<Item>, outputs: seq<OutputItem>)
    ensures CallsIn(items + AsProduced(outputs)) == CallsIn(items) + CallsOf(outputs)
    ensures AnswersIn(items + AsProduced(outputs)) == AnswersIn(items)
  {
    if outputs == [] {
      assert items + AsProduced(outputs) == items;
    } else {
      var short, last := outputs[..|outputs| - 1], outputs[|outputs| - 1];
      ProducedAddsItsCalls(items, short);
      OwedAfter(items + AsProduced(short), Produced(last));
      assert items + AsProduced(outputs) == items + AsProduced(short) + [Produced(last)];
    }
  }

  lemma {:induction false} GivenHasNoCalls(texts: seq<string>)
    ensures CallsIn(AsGiven(texts)) == [] && AnswersIn(AsGiven(texts)) == []
  {
    if texts != [] {
      var short := texts[..|texts| - 1];
      GivenHasNoCalls(short);
      assert AsGiven(texts)[..|texts| - 1] == AsGiven(short);
    }
  }

  lemma {:induction false} ToolRoundReplays(env: Env, runs: seq<Run>, response: Response, s: Loop)
    requires Replays(env, runs, s, CallsIn(s.transcript))
    ensures var t := ToolRound(env, response, s); Replays(env, runs, t, CallsIn(t.transcript))
  {
    var calls, done := CallsOf(response.items), CallsIn(s.transcript);
    var extended := Received(response, s);
    ProducedAddsItsCalls(s.transcript, response.items);
    assert Replays(env, runs, extended, done);
    AnswerAllReplays(env, runs, extended, done, calls);
  }

  lemma {:induction false} RoundsReplay(env: Env, runs: seq<Run>, s: Loop, left: nat)
    requires Replays(env, runs, s, CallsIn(s.transcript))
    ensures var t := Rounds(env, s, left).0; Replays(env, runs, t, CallsIn(t.transcript))
    decreases left
  {
    if left > 0 && Asks(env, |s.requests|, s.transcript) {
      var response := env.model(|s.requests|, s.transcript).value;
      var t := ToolRound(env, response, s);
      ToolRoundReplays(env, runs, response, s);
      RoundsReplay(env, runs, t, left - 1);
      assert Rounds(env, s, left) == Rounds(env, t, left - 1);
    } else {
      assert Rounds(env, s, left).0.transcript == s.transcript;
    }
  }

  /** Batching the calls by response changes nothing: the log has one entry per call of the
      transcript, each call has its own answer, and the tools ran in that order. */
  lemma TheLogReplaysTheTranscript(env: Env, given: seq<string>, runs: seq<Run>, limit: int)
    ensures var s := Generate(env, given, runs, limit).0;
            Replays(env, runs, s, CallsIn(s.transcript))
  {
    GivenHasNoCalls(given);
    RoundsReplay(env, runs, Start(given, runs), Limit(limit));
  }

  // ---------------------------------------------------------------------------------------
  // Which tools run

  /** A call reaches its tool: allowed, registered, not withheld on a read turn, with an
      object of arguments that validate. */
  predicate Admitted(env: Env, runs: seq<Run>, call: Call) {
    && call.arguments.Object?
    && call.name in env.allowed
    && call.name in env.registry
    && !Withheld(env.registry[call.name], env.intent)
    && !env.behave(runs, call).Invalid?
  }

  /** Every tool that ran was admitted, given what had run before it. */
  ghost predicate AllAdmitted(env: Env, earlier: nat, runs: seq<Run>) {
    forall k :: earlier <= k < |runs| ==> Admitted(env, runs[..k], runs[k].call)
  }

  lemma RanMeansAdmitted(env: Env, runs: seq<Run>, call: Call)
    ensures Handle(env, runs, call).ran <==> Admitted(env, runs, call)
    ensures Handle(env, runs, call).entry.ok <==> Admitted(env, runs, call) && env.behave(runs, call).Done?
  {
  }

  lemma {:induction false} RunsAreAdmitted(env: Env, runs: seq<Run>, calls: seq<Call>)
    ensures runs <= RunsAfter(env, runs, calls)
    ensures AllAdmitted(env, |runs|, RunsAfter(env, runs, calls))
  {
    if calls != [] {
      var before := RunsAfter(env, runs, calls[..|calls| - 1]);
      var after := RunsAfter(env, runs, calls);
      RunsAreAdmitted(env, runs, calls[..|calls| - 1]);
      RanMeansAdmitted(env, before, calls[|calls| - 1]);
      forall k | |runs| <= k < |after| ensures Admitted(env, after[..k], after[k].call) {
        if k < |before| {
          assert after[..k] == before[..k];
        } else {
          assert after[..k] == before;
        }
      }
    }
  }

  /** Only allowed, registered tools run; on a read turn none of them is a write tool that is
      not always available; and nothing that ran earlier is forgotten. */
  lemma OnlyAdmittedToolsRun(env: Env, given: seq<string>, runs: seq<Run>, limit: int)
    ensures var s := Generate(env, given, runs, limit).0;
            runs <= s.runs && AllAdmitted(env, |runs|, s.runs)
  {
    TheLogReplaysTheTranscript(env, given, runs, limit);
    RunsAreAdmitted(env, runs, CallsIn(Generate(env, given, runs, limit).0.transcript));
  }

  /** A pass runs allowed tools only; the pass after a resolver has acted allows none, so it
      runs none. */
  lemma FastPathRunsNothing(env: Env, given: seq<string>, runs: seq<Run>, limit: int)
    ensures var after := Generate(env, given, runs, limit).0.runs;
            && (forall k :: |runs| <= k < |after| ==> after[k].call.name in env.allowed)
            && (env.allowed == {} ==> after == runs)
  {
    var after := Generate(env, given, runs, limit).0.runs;
    OnlyAdmittedToolsRun(env, given, runs, limit);
    forall k | |runs| <= k < |after| ensures after[k].call.name in env.allowed {
      assert Admitted(env, after[..k], after[k].call);
    }
    assert |runs| < |after| ==> after[|runs|].call.name in env.allowed;
  }

  // ---------------------------------------------------------------------------------------
  // What the usage rows keep of the log

  function EntriesOf(rows: seq<UsageRow>): seq<Entry> {
    if rows == [] then [] else EntriesOf(rows[..|rows| - 1]) + rows[|rows| - 1].entries
  }

  function TokensOf(rows: seq<UsageRow>): nat {
    if rows == [] then 0 else TokensOf(rows[..|rows| - 1]) + rows[|rows| - 1].tokens
  }

  /** Every request from number `from` on got exactly one call. */
  ghost predicate OneCallEach(env: Env, requests: seq<seq<Item>>, from: nat) {
    forall k :: from <= k < |requests| ==>
      var response := env.model(k, requests[k]);
      response.Some? && |CallsOf(response.value.items)| == 1
  }

  lemma AddRow(rows: seq<UsageRow>, row: UsageRow)
    ensures EntriesOf(rows + [row]) == EntriesOf(rows) + row.entries
    ensures TokensOf(rows + [row]) == TokensOf(rows) + row.tokens
  {
  }

  /** A tool round's usage row holds the entry of its last call only. */
  lemma ToolRoundRow(env: Env, response: Response, s: Loop)
    requires CallsOf(response.items) != []
    ensures var t := ToolRound(env, response, s);
            && s.log < t.log
            && t.rows == s.rows + [UsageRow(|s.requests| + 1, true, response.tokens, [t.log[|t.log| - 1]])]
  {
    AnswerAllCounts(env, CallsOf(response.items), Received(response, s));
  }

  lemma {:induction false} TokensAreTheRows(env: Env, s: Loop, left: nat)
    requires s.tokens == TokensOf(s.rows)
    ensures Rounds(env, s, left).0.tokens == TokensOf(Rounds(env, s, left).0.rows)
    decreases left
  {
    if left > 0 {
      var response := env.model(|s.requests|, s.transcript);
      if Asks(env, |s.requests|, s.transcript) {
        var t := ToolRound(env, response.value, s);
        ToolRoundShape(env, response.value, s);
        ToolRoundRow(env, response.value, s);
        AddRow(s.rows, t.rows[|s.rows|]);
        TokensAreTheRows(env, t, left - 1);
      } else {
        var t := Rounds(env, s, left).0;
        AddRow(s.rows, t.rows[|s.rows|]);
      }
    }
  }

  /** The entries stored so far are a part of the log; equal only if nothing was lost. */
  ghost predicate Kept(s: Loop, kept: bool) {
    && |EntriesOf(s.rows)| <= |s.log|
    && (kept ==> EntriesOf(s.rows) == s.log)
    && (!kept ==> |EntriesOf(s.rows)| < |s.log|)
  }

  lemma ToolRoundKeeps(env: Env, response: Response, s: Loop, kept: bool)
    requires Kept(s, kept) && CallsOf(response.items) != []
    ensures Kept(ToolRound(env, response, s), kept && |CallsOf(response.items)| == 1)
  {
    var t := ToolRound(env, response, s);
    ToolRoundShape(env, response, s);
    ToolRoundRow(env, response, s);
    AddRow(s.rows, t.rows[|s.rows|]);
    if |CallsOf(response.items)| == 1 {
      assert t.log == s.log + [t.log[|t.log| - 1]];
    }
  }

  /** The first request of a run, seen apart from the others. */
  lemma OneCallFirst(env: Env, requests: seq<seq<Item>>, n: nat)
    requires n < |requests| && Asks(env, n, requests[n])
    ensures OneCallEach(env, requests, n) <==>
              |CallsOf(env.model(n, requests[n]).value.items)| == 1 && OneCallEach(env, requests, n + 1)
  {
  }

  lemma FirstRequest(env: Env, s: Loop, left: nat)
    requires left > 0 && Asks(env, |s.requests|, s.transcript)
    ensures var t := ToolRound(env, env.model(|s.requests|, s.transcript).value, s);
            && Rounds(env, s, left) == Rounds(env, t, left - 1)
            && |t.requests| == |s.requests| + 1 <= |Rounds(env, s, left).0.requests|
            && Rounds(env, s, left).0.requests[|s.requests|] == s.transcript
  {
    var n := |s.requests|;
    var t := ToolRound(env, env.model(n, s.transcript).value, s);
    ToolRoundShape(env, env.model(n, s.transcript).value, s);
    RequestsExtend(env, t, left - 1);
    assert t.requests[n] == s.transcript;
  }

  lemma {:induction false} LostEntries(env: Env, s: Loop, left: nat, kept: bool)
    requires Kept(s, kept)
    ensures var (t, outcome) := Rounds(env, s, left);
            outcome.LimitExceeded? ==> Kept(t, kept && OneCallEach(env, t.requests, |s.requests|))
    decreases left
  {
    if left > 0 && Asks(env, |s.requests|, s.transcript) {
      var response := env.model(|s.requests|, s.transcript).value;
      var t := ToolRound(env, response, s);
      ToolRoundKeeps(env, response, s, kept);
      LostEntries(env, t, left - 1, kept && |CallsOf(response.items)| == 1);
      FirstRequest(env, s, left);
      OneCallFirst(env, Rounds(env, s, left).0.requests, |s.requests|);
    }
  }

  lemma {:induction false} LastRowHoldsTheLog(env: Env, s: Loop, left: nat)
    ensures var (t, outcome) := Rounds(env, s, left);
            !outcome.LimitExceeded? ==> |t.rows| > 0 && t.rows[|t.rows| - 1].entries == t.log
    decreases left
  {
    if left > 0 && Asks(env, |s.requests|, s.transcript) {
      LastRowHoldsTheLog(env, ToolRound(env, env.model(|s.requests|, s.transcript).value, s), left - 1);
    }
  }

  /** The token total is the sum over the usage rows. A loop that answers or raises stores its
      whole log in its last row; one that runs out of rounds has stored its whole log if and
      only if no response made two calls, because a tool round stores one entry. */
  lemma UsageRowsHoldTheLogIff(env: Env, given: seq<string>, runs: seq<Run>, limit: int)
    ensures var (s, outcome) := Generate(env, given, runs, limit);
            && s.tokens == TokensOf(s.rows)
            && (!outcome.LimitExceeded? ==> |s.rows| > 0 && s.rows[|s.rows| - 1].entries == s.log)
            && (outcome.LimitExceeded? ==> (EntriesOf(s.rows) == s.log <==> OneCallEach(env, s.requests, 0)))
  {
    var start := Start(given, runs);
    TokensAreTheRows(env, start, Limit(limit));
    LastRowHoldsTheLog(env, start, Limit(limit));
    LostEntries(env, start, Limit(limit), true);
  }

  // ---------------------------------------------------------------------------------------
  // The second pass

  /** The call is turned away by the read-turn guard. */
  predicate HeldBack(env: Env, call: Call) {
    && !call.arguments.BadJson?
    && call.name in env.allowed
    && call.name in env.registry
    && Withheld(env.registry[call.name], env.intent)
  }

  /** The call's own failure happens to carry the text of the read-turn guard. */
  predicate Echoes(env: Env, runs: seq<Run>, call: Call) {
    if call.arguments.BadJson? then call.arguments.message == BLOCKED
    else
      && call.name in env.allowed
      && call.name in env.registry
      && !Withheld(env.registry[call.name], env.intent)
      && if call.arguments.NotADict? then call.arguments.message == BLOCKED
         else var behaviour := env.behave(runs, call);
              !behaviour.Done? && behaviour.message == BLOCKED
  }

  lemma BlockedEntryIff(env: Env, runs: seq<Run>, call: Call)
    ensures Handle(env, runs, call).entry.error == BLOCKED <==> HeldBack(env, call) || Echoes(env, runs, call)
  {
    assert |NOT_ALLOWED| != |BLOCKED|;
    assert UnknownTool(call.name)[0] != BLOCKED[0];
    assert BLOCKED != "";
  }

  /** The call numbered k of the first pass, seen as the guard or as an echo of it. */
  ghost predicate BlockedAt(q: Request, k: nat) {
    var env := EnvOf(q, Read, q.base.model);
    var calls := CallsIn(FirstPass(q, Read).0.transcript);
    && k < |calls|
    && (HeldBack(env, calls[k]) || Echoes(env, RunsAfter(env, [], calls[..k]), calls[k]))
  }

  /** A read turn is retried if and only if its first pass did not raise and one of its calls
      was held back, or failed with the very text of the guard. */
  lemma RetriesIff(q: Request)
    ensures Retries(q, Read) <==> !FirstPass(q, Read).1.Raised? && exists k: nat :: BlockedAt(q, k)
  {
    var env := EnvOf(q, Read, q.base.model);
    var s := FirstPass(q, Read).0;
    var calls := CallsIn(s.transcript);
    TheLogReplaysTheTranscript(env, q.given, [], q.limit);
    forall k | 0 <= k < |calls| ensures s.log[k].error == BLOCKED <==> BlockedAt(q, k) {
      EntryAt(env, [], calls, k);
      BlockedEntryIff(env, RunsAfter(env, [], calls[..k]), calls[k]);
    }
    if HasBlocked(s.log) {
      var k :| 0 <= k < |s.log| && s.log[k].error == BLOCKED;
      assert BlockedAt(q, k);
    }
    if k: nat :| BlockedAt(q, k) {
      assert s.log[k].error == BLOCKED;
    }
  }

  /** The organization's tools are the registry's, up to their parameter schemas. */
  ghost predicate FromRegistry(org: Org, registry: map<string, Tool>) {
    forall tool :: tool in org.tools ==>
      && tool.name in registry
      && registry[tool.name].writes == tool.writes
      && registry[tool.name].alwaysAvailable == tool.alwaysAvailable
  }

  /** When an organization's own selection is used, the read-turn guard never holds a call
      back: the selection for a read turn has left out every tool the guard looks for, so a
      call to one of them is answered as not allowed. The retry then never fires for the
      reason it exists; only a tool that echoes the guard's text can cause it. */
  lemma OrgSelectionNeverHoldsBack(q: Request, call: Call)
    requires q.tools.None? && q.org.Some? && FromRegistry(q.org.value, q.base.registry)
    ensures !HeldBack(EnvOf(q, Read, q.base.model), call)
  {
  }

  lemma OrgRetriesOnlyOnAnEcho(q: Request)
    requires q.tools.None? && q.org.Some? && FromRegistry(q.org.value, q.base.registry)
    ensures var env := EnvOf(q, Read, q.base.model);
            var calls := CallsIn(FirstPass(q, Read).0.transcript);
            Retries(q, Read) <==>
              (!FirstPass(q, Read).1.Raised?
               && exists k :: 0 <= k < |calls| && Echoes(env, RunsAfter(env, [], calls[..k]), calls[k]))
  {
    RetriesIff(q);
    var env := EnvOf(q, Read, q.base.model);
    var calls := CallsIn(FirstPass(q, Read).0.transcript);
    if k: nat :| BlockedAt(q, k) {
      OrgSelectionNeverHoldsBack(q, calls[k]);
      assert Echoes(env, RunsAfter(env, [], calls[..k]), calls[k]);
    }
    if k :| 0 <= k < |calls| && Echoes(env, RunsAfter(env, [], calls[..k]), calls[k]) {
      assert BlockedAt(q, k);
    }
  }

  /** A read turn that is not retried runs no write tool that is not always available. A
      retried one keeps what the first pass ran, then runs only tools allowed on a write turn. */
  lemma PassesRunOnlyTheirTools(q: Request)
    ensures AllAdmitted(EnvOf(q, Read, q.base.model), 0, FirstPass(q, Read).0.runs)
    ensures Retries(q, Read) ==>
              && FirstPass(q, Read).0.runs <= SecondPass(q).0.runs
              && AllAdmitted(EnvOf(q, Write, q.again), |FirstPass(q, Read).0.runs|, SecondPass(q).0.runs)
  {
    OnlyAdmittedToolsRun(EnvOf(q, Read, q.base.model), q.given, [], q.limit);
    OnlyAdmittedToolsRun(EnvOf(q, Write, q.again), q.givenAgain, FirstPass(q, Read).0.runs, q.limit);
  }
}
