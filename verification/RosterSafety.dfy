/** What the pending-turn protocol keeps over every turn and every run. */
module RosterSafety {
  import opened Wrappers
  import opened RosterTurns

  // ---------------------------------------------------------------------------------------
  // Declining a switch.

  /** The rows that are active at `now`. */
  function Active(s: State, now: int): State { DropStaleWrite(DropStaleQuestion(s, now), now) }

  predicate SwitchPending(s: State, now: int) {
    var a := Active(s, now);
    a.question.Some? && IsSwitch(a.question.value)
  }

  /** The turn puts up a switch prompt where none was pending. */
  predicate Opens(s: State, t: Turn) {
    !SwitchPending(s, t.now) && SwitchTurn(s, t).1 == Reminder
  }

  predicate StillUp(opening: Turn, t: Turn) { opening.now <= t.now < opening.now + TTL }

  /** The rows of `prior` as a decline at `now` leaves them: the row that was snapshotted has a
      new expiry, and a restored write has lost its Telegram message. */
  function Declined(prior: State, now: int): State {
    if prior.question.Some? then
      prior.(question := Some(prior.question.value.(expiresAt := now + TTL)))
    else if prior.write.Some? then
      prior.(write := Some(prior.write.value.(expiresAt := now + TTL, telegram := None)))
    else prior
  }

  lemma DeclineRestoresPending(s: State, opening: Turn, t: Turn)
    requires Opens(s, opening) && StillUp(opening, t)
    requires IsNo(t.prompt) || (IsCancel(t.prompt) && !IsYes(t.prompt))
    ensures SwitchTurn(SwitchTurn(s, opening).0, t).0 == Declined(Active(s, opening.now), t.now)
    ensures SwitchTurn(SwitchTurn(s, opening).0, t).1 == if IsNo(t.prompt) then Reminder else Cancelled
  {
  }

  /** A request that neither answers the switch prompt nor names a role, or the reply to one. */
  ghost predicate Idles(opening: Turn, op: Op) {
    match op
    case Request(turn, _) =>
      && StillUp(opening, turn)
      && !IsYes(turn.prompt) && !IsNo(turn.prompt) && !IsCancel(turn.prompt)
      && turn.roleWord.None?
    case Attach(now, _, _) => opening.now <= now < opening.now + TTL
    case _ => false
  }

  function TimeOf(op: Op): int { if op.Request? then op.turn.now else if op.Cancel? then 0 else op.now }

  /** The write is the same but for the message it was shown in, or ran out before some operation. */
  ghost predicate KeptOrRanOut(before: Option<Write>, after: Option<Write>, ops: seq<Op>) {
    match before
    case None => after.None?
    case Some(w) =>
      if after.Some? then after.value == w.(telegram := after.value.telegram)
      else exists op <- ops :: !op.Cancel? && w.expiresAt <= TimeOf(op)
  }

  lemma {:induction false} SwitchStaysUp(telegram: bool, s: State, opening: Turn, ops: seq<Op>)
    requires Opens(s, opening)
    requires forall op <- ops :: Idles(opening, op)
    ensures var up := SwitchTurn(s, opening).0;
            var s' := Run(telegram, up, ops);
            s' == up.(write := s'.write) && KeptOrRanOut(up.write, s'.write, ops)
    decreases |ops|
  {
    if ops != [] {
      var last := ops[|ops| - 1];
      var up := SwitchTurn(s, opening).0;
      var before := Run(telegram, up, ops[..|ops| - 1]);
      SwitchStaysUp(telegram, s, opening, ops[..|ops| - 1]);
      assert last in ops && Idles(opening, last);
      if last.Request? {
        var (after, os) := ResolveTurn(telegram, before, last.turn);
        assert os[0] == Reminder && os[0] in os;
        assert after == DropStaleWrite(before, last.turn.now);
        assert Run(telegram, up, ops) == after;
      }
    }
  }

  /** However many unrelated requests and replies come between, declining brings back the question
      with all its fields, or the write with everything it says but without its Telegram message.
      A write that stood beside the question is still there unless it ran out in between. */
  lemma DeclineAfterAnyWait(telegram: bool, s: State, opening: Turn, ops: seq<Op>, t: Turn)
    requires Opens(s, opening) && StillUp(opening, t)
    requires forall op <- ops :: Idles(opening, op)
    requires IsNo(t.prompt) || (IsCancel(t.prompt) && !IsYes(t.prompt))
    ensures var prior := Active(s, opening.now);
            var s' := SwitchTurn(Run(telegram, SwitchTurn(s, opening).0, ops), t).0;
            && s'.executed == s.executed
            && s'.calls == s.calls
            && s'.question == Declined(prior, t.now).question
            && (prior.question.Some? ==> KeptOrRanOut(prior.write, s'.write, ops))
            && (prior.question.None? ==>
                  && prior.write.Some? && s'.write.Some?
                  && s'.write.value.body == prior.write.value.body
                  && s'.write.value.expiresAt == t.now + TTL
                  && s'.write.value.telegram == None)
  {
    SwitchStaysUp(telegram, s, opening, ops);
  }

  /** With both a question and a write pending, only the question is put into the snapshot: the
      write keeps its own expiry, so declining brings back all rows just when it has not run out. */
  lemma DeclineRevivesAllRows(s: State, opening: Turn, t: Turn)
    requires Opens(s, opening) && StillUp(opening, t) && IsNo(t.prompt)
    ensures var prior := Active(s, opening.now);
            var now := SwitchTurn(SwitchTurn(s, opening).0, t).0;
            Active(now, t.now) == now <==>
              (prior.question.Some? && prior.write.Some? ==> prior.write.value.expiresAt > t.now)
  {
  }

  /** The question takes the prompt of this very turn as the choice of a candidate. */
  predicate AnswersAtOnce(s: State, t: Turn) {
    s.question.Some? && Answerable(s.question.value.field) && t.pick.Some?
  }

  /** The tool that the answer runs ends the question and leaves no write. */
  predicate LeavesNothing(s: State, t: Turn) {
    && t.answerRun.reply.Some? && t.answerRun.reply.value != Ambiguous
    && s.write.None?
    && forall save <- t.answerRun.saves :: save.SaveQuestion?
  }

  /** The other two resolvers see the same prompt. "no", "stop" and the other cancel words cancel
      again what the switch resolver has restored, so no row is left. "n" and "nope"
      keep the restored rows, unless the prompt also chooses a candidate of a restored question:
      that question is then answered in the same turn, and a row is left only if the answer fails,
      asks again, or leaves a write. The role parser finds no role in a declining word. */
  lemma DeclineSurvivesTheTurn(telegram: bool, s: State, opening: Turn, t: Turn)
    requires Opens(s, opening) && StillUp(opening, t) && t.roleWord.None?
    requires IsNo(t.prompt) || (IsCancel(t.prompt) && !IsYes(t.prompt))
    ensures var restored := Active(Declined(Active(s, opening.now), t.now), t.now);
            var after := ResolveTurn(telegram, SwitchTurn(s, opening).0, t).0;
            && (!IsCancel(t.prompt) && !AnswersAtOnce(restored, t) ==> after == restored)
            && (NoRows(after) <==> IsCancel(t.prompt) || (AnswersAtOnce(restored, t) && LeavesNothing(restored, t)))
  {
    var restored := Active(Declined(Active(s, opening.now), t.now), t.now);
    var s1 := SwitchTurn(SwitchTurn(s, opening).0, t).0;
    DeclineRestoresPending(s, opening, t);
    if !IsCancel(t.prompt) {
      assert ConfirmTurn(telegram, s1, t).0 == restored;
      AnswerLeavesRowsIff(restored, t);
    }
  }

  /** What the answering resolver leaves of active rows, for a prompt that cancels nothing. */
  lemma AnswerLeavesRowsIff(s: State, t: Turn)
    requires Active(s, t.now) == s && !NoRows(s) && !IsCancel(t.prompt)
    requires s.question.Some? ==> !IsSwitch(s.question.value)
    ensures !AnswersAtOnce(s, t) ==> AnswerTurn(s, t).0 == s
    ensures NoRows(AnswerTurn(s, t).0) <==> AnswersAtOnce(s, t) && LeavesNothing(s, t)
  {
    if AnswersAtOnce(s, t) {
      var row := s.question.value;
      var call := ToolCall(row.tool, FillPick(PartialArgs(row.partial), row.field, t.pick.value));
      SavesLeaveRows(s.(calls := s.calls + [call]), t.answerRun.saves, t.now);
    }
  }

  /** Saving never removes the last row, and a write is there just when one was or one was saved. */
  lemma {:induction false} SavesLeaveRows(s: State, saves: seq<Save>, now: int)
    ensures !NoRows(s) ==> !NoRows(ApplySaves(s, saves, now))
    ensures ApplySaves(s, saves, now).write.None? <==> s.write.None? && forall save <- saves :: save.SaveQuestion?
    decreases |saves|
  {
    if saves != [] {
      var short, last := saves[..|saves| - 1], saves[|saves| - 1];
      SavesLeaveRows(s, short, now);
      assert saves == short + [last];
    }
  }

  /** Fourteen roles to choose from; the fourteenth has the letter N. */
  const ROLES := ["a", "b", "c", "d", "e", "f", "g", "h", "i", "j", "k", "l", "m", "n"]

  /** Declining a switch over a choice of role with "n": the question is restored and at once
      answered with candidate N, the role of id 14, so its tool runs and no row is left. */
  lemma DecliningLetterAnswersTheQuestion(telegram: bool, opening: Turn, t: Turn)
    requires opening.now == 0 && opening.isExplicit
    requires opening.command == Some(Command("enroll_student_in_course", map[]))
    requires t.now == 1 && t.prompt == "n" && t.roleWord.None? && t.pick == Some(14)
    requires t.answerRun == ToolRun([], Some(Finished))
    ensures var asked := Question("assign_staff_to_course", CourseRole, Plain(map[]), ROLES, TTL);
            var s := START.(question := Some(asked));
            && Opens(s, opening) && StillUp(opening, t) && !IsCancel(t.prompt)
            && var after := ResolveTurn(telegram, SwitchTurn(s, opening).0, t).0;
               && NoRows(after)
               && after.calls == [ToolCall("assign_staff_to_course", map["course_role_id" := JInt(14)])]
  {
    var asked := Question("assign_staff_to_course", CourseRole, Plain(map[]), ROLES, TTL);
    var s := START.(question := Some(asked));
    assert SwitchTurn(s, opening).1 == Reminder;
    DeclineRestoresPending(s, opening, t);
    var s1 := SwitchTurn(SwitchTurn(s, opening).0, t).0;
    assert s1 == START.(question := Some(asked.(expiresAt := 1 + TTL)));
    assert ConfirmTurn(telegram, s1, t).0 == s1;
    assert FillPick(map[], CourseRole, 14) == map["course_role_id" := JInt(14)];
  }

  ghost predicate NoRows(s: State) { s.question.None? && s.write.None? }

  // ---------------------------------------------------------------------------------------
  // One execution a turn.

  /** `s'` executed nothing, or one write that was active before or proposed in between. */
  ghost predicate AtMostOneExecution(s: State, s': State, now: int) {
    || s'.executed == s.executed
    || exists e ::
         && s'.executed == s.executed + [e]
         && e.at == now < e.expiresAt
         && (e.body.proposal >= s.nextProposal || (s.write.Some? && e.body == s.write.value.body))
  }

  /** The confirmation resolver executes the active write and then fails to edit its message. */
  predicate ConfirmEditFails(telegram: bool, s: State, t: Turn) {
    var s0 := DropStaleWrite(s, t.now);
    telegram && IsConfirm(t.prompt) && s0.write.Some? && EditRaises(s0.write.value, t)
  }

  /** The same, for a whole turn. */
  predicate EditFails(telegram: bool, s: State, t: Turn) {
    var (s1, o) := SwitchTurn(s, t);
    !o.Raised? && ConfirmEditFails(telegram, s1, t)
  }

  lemma {:induction false} SavesExecuteNothing(s: State, saves: seq<Save>, now: int)
    ensures ApplySaves(s, saves, now).executed == s.executed
    ensures ApplySaves(s, saves, now).calls == s.calls
    ensures ApplySaves(s, saves, now).nextProposal >= s.nextProposal
    ensures var w := ApplySaves(s, saves, now).write;
            w == s.write || (w.Some? && w.value.body.proposal >= s.nextProposal)
    decreases |saves|
  {
    if saves != [] {
      SavesExecuteNothing(s, saves[..|saves| - 1], now);
    }
  }

  lemma SwitchTurnExecutesOnce(s: State, t: Turn)
    ensures var (s', o) := SwitchTurn(s, t);
            && AtMostOneExecution(s, s', t.now)
            && (s'.executed != s.executed ==> o.Executed? && NoRows(s'))
            && s'.nextProposal >= s.nextProposal
            && (s'.executed == s.executed && IsYes(t.prompt) && !o.Raised? ==>
                  s'.write.None? || s'.write == s.write)
  {
    var s0 := DropStaleQuestion(s, t.now);
    if s0.question.Some? && IsSwitch(s0.question.value) && IsYes(t.prompt) {
      var row := s0.question.value;
      var call := if row.partial.Switch? then ToolCall(row.partial.newTool, row.partial.newArgs)
                  else ToolCall("", map[]);
      var c := ClearAll(s0.(question := None));
      SavesExecuteNothing(c.(calls := c.calls + [call]), t.switchRun.saves, t.now);
      if t.switchRun.reply == Some(PendingConfirmation) && t.execution.Some? {
        var active := DropStaleWrite(RunTool(c, call, t.switchRun, t.now), t.now);
        if active.write.Some? {
          var w := active.write.value;
          assert SwitchTurn(s, t).0.executed == s.executed + [Execution(w.body, t.now, w.expiresAt)];
        }
      }
    }
  }

  lemma ConfirmTurnExecutesOnce(telegram: bool, s: State, t: Turn)
    ensures var (s', o) := ConfirmTurn(telegram, s, t);
            && AtMostOneExecution(s, s', t.now)
            && (s'.executed != s.executed ==>
                  && (NoRows(s') <==> !ConfirmEditFails(telegram, s, t))
                  && (o.Raised? <==> ConfirmEditFails(telegram, s, t))
                  && (o.Executed? || o.Raised?))
            && (ConfirmEditFails(telegram, s, t) ==> s'.executed != s.executed)
  {
    var s0 := DropStaleWrite(s, t.now);
    if s0.write.Some? {
      var w := s0.write.value;
      if IsCancel(t.prompt) {
      } else if TakesRoleOverride(w, t) {
        var c := s0.(write := None);
        var call := OverrideCall(w, RoleOverride(t).value);
        SavesExecuteNothing(c.(calls := c.calls + [call]), t.roleRun.saves, t.now);
      } else if telegram && IsConfirm(t.prompt) && t.execution.Some? {
        assert ConfirmTurn(telegram, s, t).0.executed == s.executed + [Execution(w.body, t.now, w.expiresAt)];
      }
    }
  }

  lemma AnswerTurnExecutesNothing(s: State, t: Turn)
    ensures AnswerTurn(s, t).0.executed == s.executed
    ensures NoRows(s) ==> AnswerTurn(s, t) == (s, Unhandled)
  {
    var s0 := DropStaleQuestion(s, t.now);
    if s0.question.Some? && !IsSwitch(s0.question.value) && t.pick.Some? && Answerable(s0.question.value.field) {
      var row := s0.question.value;
      var call := ToolCall(row.tool, FillPick(PartialArgs(row.partial), row.field, t.pick.value));
      SavesExecuteNothing(s0.(calls := s0.calls + [call]), t.answerRun.saves, t.now);
    }
  }

  lemma ResolversExecuteAtMostOnce(telegram: bool, s: State, t: Turn)
    ensures var (s', os) := ResolveTurn(telegram, s, t);
            && AtMostOneExecution(s, s', t.now)
            && (s'.executed != s.executed ==>
                  && (NoRows(s') <==> !EditFails(telegram, s, t))
                  && exists o <- os :: o.Raised? || o.Executed?)
            && (EditFails(telegram, s, t) ==> s'.executed != s.executed)
  {
    var (s1, o1) := SwitchTurn(s, t);
    SwitchTurnExecutesOnce(s, t);
    var (s', os) := ResolveTurn(telegram, s, t);
    assert os[0] == o1 && o1 in os;
    if !o1.Raised? {
      ConfirmTurnExecutesOnce(telegram, s1, t);
      var (s2, o2) := ConfirmTurn(telegram, s1, t);
      assert os[1] == o2 && o2 in os;
      AnswerTurnExecutesNothing(s2, t);
    }
  }

  /** A whole request: the resolvers, and the tools the model runs when no fast path was taken. */
  lemma TurnExecutesAtMostOnce(telegram: bool, s: State, t: Turn, saves: seq<Save>)
    ensures var s' := Step(telegram, s, Request(t, saves));
            && AtMostOneExecution(s, s', t.now)
            && (s'.executed != s.executed ==> (NoRows(s') <==> !EditFails(telegram, s, t)))
            && (EditFails(telegram, s, t) ==> s'.executed != s.executed)
  {
    ResolversExecuteAtMostOnce(telegram, s, t);
    SavesExecuteNothing(ResolveTurn(telegram, s, t).0, saves, t.now);
  }

  /** The confirmation resolver clears the channel before it returns, whatever becomes of the edit,
      just when the stored write remembers no message or the action does not succeed. */
  lemma ConfirmationClearsIff(s: State, t: Turn)
    requires s.write.Some? && t.now < s.write.value.expiresAt
    requires IsConfirm(t.prompt) && t.execution.Some?
    ensures (forall raises :: NoRows(ConfirmTurn(true, s, t.(editRaises := raises)).0)) <==>
            s.write.value.telegram.None? || t.execution != Some(Succeeded)
  {
    var after := ConfirmTurn(true, s, t.(editRaises := true)).0;
    var w := s.write.value;
    assert NoRows(after) <==> w.telegram.None? || t.execution != Some(Succeeded);
    assert NoRows(ConfirmTurn(true, s, t.(editRaises := false)).0);
  }

  /** A request or press executes one proposal at most. It leaves the channel without a row, unless
      it is a typed confirmation whose message could not be edited. */
  lemma ExecutionClearsTheChannel(telegram: bool, s: State, op: Op)
    requires Step(telegram, s, op).executed != s.executed
    ensures |Step(telegram, s, op).executed| == |s.executed| + 1
    ensures NoRows(Step(telegram, s, op)) <==> !(op.Request? && EditFails(telegram, s, op.turn))
  {
    if op.Request? {
      TurnExecutesAtMostOnce(telegram, s, op.turn, op.modelSaves);
    }
  }

  // ---------------------------------------------------------------------------------------
  // Whole runs.

  /** A switch row stores a snapshot of what it overlays: never nothing, never another switch. */
  ghost predicate GoodQuestion(q: Question) {
    && (IsSwitch(q) <==> q.partial.Switch?)
    && (IsSwitch(q) ==>
          && !q.partial.prior.NoSnapshot?
          && (q.partial.prior.OfQuestion? ==>
                q.partial.prior.field != SwitchConfirm && q.partial.prior.partial.Plain?))
  }

  /** The proposal is pending, as the stored write or in the snapshot of a switch. */
  ghost predicate Awaits(s: State, p: nat) {
    || (s.write.Some? && s.write.value.body.proposal == p)
    || (s.question.Some? && PriorOf(s.question.value).OfWrite?
        && PriorOf(s.question.value).body.proposal == p)
  }

  /** Only known proposals were executed, and none after it had run out. */
  ghost predicate InTime(es: seq<Execution>, nextProposal: nat) {
    forall e <- es :: e.body.proposal < nextProposal && e.at < e.expiresAt
  }

  ghost predicate Shape(s: State) {
    && (s.question.Some? ==>
          && GoodQuestion(s.question.value)
          && var prior := PriorOf(s.question.value);
             prior.OfWrite? ==> prior.body.proposal < s.nextProposal)
    && (s.write.Some? ==> s.write.value.pk < s.nextPk && s.write.value.body.proposal < s.nextProposal)
    && InTime(s.executed, s.nextProposal)
  }

  /** How often a proposal was executed. */
  function Times(es: seq<Execution>, p: nat): nat {
    if es == [] then 0
    else Times(es[..|es| - 1], p) + if es[|es| - 1].body.proposal == p then 1 else 0
  }

  /** Of proposal `p`, `failed` executions kept their row because the edit failed; at most one
      more took place, and none while the proposal is pending. */
  ghost predicate Inv(s: State, p: nat, failed: nat) {
    && Shape(s)
    && failed <= Times(s.executed, p) <= failed + 1
    && (Awaits(s, p) ==> Times(s.executed, p) == failed)
  }

  /** The proposal whose message the operation fails to edit after executing it. */
  function FailedEdit(telegram: bool, s: State, op: Op): Option<nat> {
    if op.Request? && EditFails(telegram, s, op.turn)
    then Some(SwitchTurn(s, op.turn).0.write.value.body.proposal)
    else None
  }

  /** How many times in a run the edit failed after an execution of `p`. */
  function Failures(telegram: bool, ops: seq<Op>, p: nat): nat
    decreases |ops|
  {
    if ops == [] then 0
    else
      var short, last := ops[..|ops| - 1], ops[|ops| - 1];
      Failures(telegram, short, p) + if FailedEdit(telegram, Run(telegram, START, short), last) == Some(p) then 1 else 0
  }

  lemma {:induction false} TimesOfUnknown(es: seq<Execution>, p: nat)
    ensures Times(es, p) > 0 <==> exists e <- es :: e.body.proposal == p
  {
    if es != [] {
      TimesOfUnknown(es[..|es| - 1], p);
      assert es == es[..|es| - 1] + [es[|es| - 1]];
    }
  }

  lemma TimesOfNext(es: seq<Execution>, e: Execution, p: nat)
    ensures Times(es + [e], p) == Times(es, p) + if e.body.proposal == p then 1 else 0
  {
    assert (es + [e])[..|es|] == es;
  }

  lemma SaveKeepsInv(s: State, save: Save, now: int, p: nat, failed: nat)
    requires Inv(s, p, failed)
    ensures Inv(ApplySave(s, save, now), p, failed)
  {
    TimesOfUnknown(s.executed, p);
  }

  lemma {:induction false} SavesKeepInv(s: State, saves: seq<Save>, now: int, p: nat, failed: nat)
    requires Inv(s, p, failed)
    ensures Inv(ApplySaves(s, saves, now), p, failed)
    decreases |saves|
  {
    if saves != [] {
      SavesKeepInv(s, saves[..|saves| - 1], now, p, failed);
      SaveKeepsInv(ApplySaves(s, saves[..|saves| - 1], now), saves[|saves| - 1], now, p, failed);
    }
  }

  lemma RunToolKeepsInv(s: State, call: ToolCall, run: ToolRun, now: int, p: nat, failed: nat)
    requires Inv(s, p, failed)
    ensures Inv(RunTool(s, call, run, now), p, failed)
  {
    SavesKeepInv(s.(calls := s.calls + [call]), run.saves, now, p, failed);
  }

  lemma ClearKeepsInv(s: State, p: nat, failed: nat)
    requires Inv(s, p, failed)
    ensures Inv(ClearAll(s), p, failed)
  {
  }

  lemma NoQuestionKeepsInv(s: State, p: nat, failed: nat)
    requires Inv(s, p, failed)
    ensures Inv(s.(question := None), p, failed)
  {
  }

  lemma NoWriteKeepsInv(s: State, p: nat, failed: nat)
    requires Inv(s, p, failed)
    ensures Inv(s.(write := None), p, failed)
  {
  }

  /** Executing the pending write and clearing keeps the count of failed edits; leaving the row
      behind adds one. */
  lemma ExecuteKeepsInv(s: State, now: int, p: nat, failed: nat)
    requires Inv(s, p, failed) && s.write.Some? && now < s.write.value.expiresAt
    ensures var s' := Execute(s, s.write.value, now);
            && Inv(ClearAll(s'), p, failed)
            && Inv(s', p, failed + if s.write.value.body.proposal == p then 1 else 0)
  {
    var w := s.write.value;
    assert Awaits(s, w.body.proposal);
    TimesOfNext(s.executed, Execution(w.body, now, w.expiresAt), p);
  }

  lemma ExecuteExplicitKeepsInv(s: State, call: ToolCall, t: Turn, p: nat, failed: nat)
    requires Inv(s, p, failed)
    ensures Inv(ExecuteExplicit(s, call, t).0, p, failed)
  {
    ClearKeepsInv(s, p, failed);
    var ran := RunTool(ClearAll(s), call, t.switchRun, t.now);
    RunToolKeepsInv(ClearAll(s), call, t.switchRun, t.now, p, failed);
    if t.switchRun.reply == Some(PendingConfirmation) {
      ExecuteRanKeepsInv(ran, t, p, failed);
    } else {
      ClearKeepsInv(ran, p, failed);
    }
  }

  lemma ExecuteRanKeepsInv(ran: State, t: Turn, p: nat, failed: nat)
    requires Inv(ran, p, failed)
    ensures var active := DropStaleWrite(ran, t.now);
            && Inv(active, p, failed)
            && Inv(ClearAll(active), p, failed)
            && (active.write.Some? ==> Inv(ClearAll(Execute(active, active.write.value, t.now)), p, failed))
  {
    var active := DropStaleWrite(ran, t.now);
    NoWriteKeepsInv(ran, p, failed);
    if active.write.Some? {
      ExecuteKeepsInv(active, t.now, p, failed);
    }
  }

  lemma RestoreKeepsInv(s: State, q: Question, now: int, p: nat, failed: nat)
    requires Inv(s, p, failed) && s.question == Some(q) && IsSwitch(q)
    ensures Inv(Restore(s.(question := None), PriorOf(q), now), p, failed)
  {
    if q.partial.prior.OfWrite? {
      assert Awaits(s, q.partial.prior.body.proposal);
    }
  }

  lemma OpenKeepsInv(s: State, cmd: Command, now: int, p: nat, failed: nat)
    requires Inv(s, p, failed) && (s.question.Some? || s.write.Some?)
    requires s.question.Some? ==> !IsSwitch(s.question.value)
    ensures var partial := Switch(cmd.tool, cmd.args, SnapshotOf(s.question, s.write));
            Inv(SaveQuestionRow(s, cmd.tool, SwitchConfirm, partial, [], now), p, failed)
  {
  }

  lemma ResolveSwitchKeepsInv(s: State, row: Question, t: Turn, p: nat, failed: nat)
    requires Inv(s, p, failed) && s.question == Some(row) && IsSwitch(row)
    ensures Inv(ResolveSwitch(s, row, t).0, p, failed)
  {
    if IsYes(t.prompt) {
      NoQuestionKeepsInv(s, p, failed);
      var call := ToolCall(row.partial.newTool, row.partial.newArgs);
      ExecuteExplicitKeepsInv(s.(question := None), call, t, p, failed);
    } else {
      RestoreKeepsInv(s, row, t.now, p, failed);
    }
  }

  lemma SwitchTurnKeepsInv(s: State, t: Turn, p: nat, failed: nat)
    requires Inv(s, p, failed)
    ensures Inv(SwitchTurn(s, t).0, p, failed)
  {
    NoQuestionKeepsInv(s, p, failed);
    var s0 := DropStaleQuestion(s, t.now);
    if s0.question.Some? && IsSwitch(s0.question.value) {
      ResolveSwitchKeepsInv(s0, s0.question.value, t, p, failed);
    } else if t.command.Some? {
      NoWriteKeepsInv(s0, p, failed);
      var s1 := DropStaleWrite(s0, t.now);
      if s1.question.Some? || s1.write.Some? {
        OpenKeepsInv(s1, t.command.value, t.now, p, failed);
      }
    }
  }

  lemma OverrideKeepsInv(s: State, w: Write, t: Turn, p: nat, failed: nat)
    requires Inv(s, p, failed) && TakesRoleOverride(w, t)
    ensures Inv(OverrideRole(s, w, t).0, p, failed)
  {
    NoWriteKeepsInv(s, p, failed);
    var c := s.(write := None);
    var call := OverrideCall(w, RoleOverride(t).value);
    RunToolKeepsInv(c, call, t.roleRun, t.now, p, failed);
    NoWriteKeepsInv(RunTool(c, call, t.roleRun, t.now), p, failed);
  }

  lemma ConfirmWriteKeepsInv(s: State, w: Write, t: Turn, p: nat, failed: nat)
    requires Inv(s, p, failed) && s.write == Some(w) && t.now < w.expiresAt
    ensures Inv(ConfirmWrite(s, w, t).0, p, failed + if EditRaises(w, t) && w.body.proposal == p then 1 else 0)
  {
    ExecuteKeepsInv(s, t.now, p, failed);
  }

  lemma ConfirmTurnKeepsInv(telegram: bool, s: State, t: Turn, p: nat, failed: nat)
    requires Inv(s, p, failed)
    ensures var fails := ConfirmEditFails(telegram, s, t) && s.write.value.body.proposal == p;
            Inv(ConfirmTurn(telegram, s, t).0, p, failed + if fails then 1 else 0)
  {
    var s0 := DropStaleWrite(s, t.now);
    NoWriteKeepsInv(s, p, failed);
    if s0.write.None? {
    } else if IsCancel(t.prompt) {
      ClearKeepsInv(s0, p, failed);
    } else if TakesRoleOverride(s0.write.value, t) {
      OverrideKeepsInv(s0, s0.write.value, t, p, failed);
    } else if telegram && IsConfirm(t.prompt) {
      ConfirmWriteKeepsInv(s0, s0.write.value, t, p, failed);
    }
  }

  lemma AnswerTurnKeepsInv(s: State, t: Turn, p: nat, failed: nat)
    requires Inv(s, p, failed)
    ensures Inv(AnswerTurn(s, t).0, p, failed)
  {
    var s0 := DropStaleQuestion(s, t.now);
    NoQuestionKeepsInv(s, p, failed);
    if s0.question.Some? && t.pick.Some? && Answerable(s0.question.value.field) && !IsCancel(t.prompt) {
      var row := s0.question.value;
      var call := ToolCall(row.tool, FillPick(PartialArgs(row.partial), row.field, t.pick.value));
      RunToolKeepsInv(s0, call, t.answerRun, t.now, p, failed);
      NoQuestionKeepsInv(RunTool(s0, call, t.answerRun, t.now), p, failed);
    }
  }

  lemma LaterResolversKeepInv(telegram: bool, s: State, t: Turn, p: nat, failed: nat)
    requires Inv(s, p, failed)
    ensures var fails := ConfirmEditFails(telegram, s, t) && s.write.value.body.proposal == p;
            var (s', o) := ConfirmTurn(telegram, s, t);
            && Inv(s', p, failed + if fails then 1 else 0)
            && Inv(AnswerTurn(s', t).0, p, failed + if fails then 1 else 0)
  {
    var fails := ConfirmEditFails(telegram, s, t) && s.write.value.body.proposal == p;
    ConfirmTurnKeepsInv(telegram, s, t, p, failed);
    AnswerTurnKeepsInv(ConfirmTurn(telegram, s, t).0, t, p, failed + if fails then 1 else 0);
  }

  lemma ResolveTurnKeepsInv(telegram: bool, s: State, t: Turn, p: nat, failed: nat)
    requires Inv(s, p, failed)
    ensures var fails := FailedEdit(telegram, s, Request(t, [])) == Some(p);
            Inv(ResolveTurn(telegram, s, t).0, p, failed + if fails then 1 else 0)
  {
    SwitchTurnKeepsInv(s, t, p, failed);
    LaterResolversKeepInv(telegram, SwitchTurn(s, t).0, t, p, failed);
  }

  lemma PressConfirmKeepsInv(s: State, pk: nat, now: int, execution: Option<Reply>, p: nat, failed: nat)
    requires Inv(s, p, failed)
    ensures Inv(PressConfirm(s, pk, now, execution), p, failed)
  {
    ClearKeepsInv(s, p, failed);
    if s.write.Some? && now < s.write.value.expiresAt {
      ExecuteKeepsInv(s, now, p, failed);
    }
  }

  lemma StepKeepsInv(telegram: bool, s: State, op: Op, p: nat, failed: nat)
    requires Inv(s, p, failed)
    ensures Inv(Step(telegram, s, op), p, failed + if FailedEdit(telegram, s, op) == Some(p) then 1 else 0)
  {
    match op
    case Request(t, saves) =>
      ResolveTurnKeepsInv(telegram, s, t, p, failed);
      var failed' := failed + if FailedEdit(telegram, s, op) == Some(p) then 1 else 0;
      SavesKeepInv(ResolveTurn(telegram, s, t).0, saves, t.now, p, failed');
    case Attach(now, chat, message) => NoWriteKeepsInv(s, p, failed);
    case Confirm(pk, now, execution) => PressConfirmKeepsInv(s, pk, now, execution, p, failed);
    case Cancel(pk) => ClearKeepsInv(s, p, failed);
  }

  /** Over any run of requests, replies and presses, a proposal is executed once for every failed
      edit of its message and at most once more, and while it is pending, not even that; also when
      it was saved again by a declined switch. None is executed after its expiry, and a stored
      switch always snapshots a question or a write. */
  lemma {:induction false} ExecutionsAreFailedEditsAndOneMore(telegram: bool, ops: seq<Op>, p: nat)
    ensures var s, failed := Run(telegram, START, ops), Failures(telegram, ops, p);
            && Inv(s, p, failed)
            && failed <= Times(s.executed, p) <= failed + 1
            && (Awaits(s, p) ==> Times(s.executed, p) == failed)
            && (forall e <- s.executed :: e.at < e.expiresAt)
            && (s.question.Some? ==> GoodQuestion(s.question.value))
    decreases |ops|
  {
    if ops != [] {
      var short, last := ops[..|ops| - 1], ops[|ops| - 1];
      ExecutionsAreFailedEditsAndOneMore(telegram, short, p);
      StepKeepsInv(telegram, Run(telegram, START, short), last, p, Failures(telegram, short, p));
    }
  }

  ghost predicate NoneTwice(es: seq<Execution>) {
    forall i, j :: 0 <= i < j < |es| ==> es[i].body.proposal != es[j].body.proposal
  }

  lemma {:induction false} TimesOfPair(es: seq<Execution>, i: nat, j: nat)
    requires i < j < |es| && es[i].body.proposal == es[j].body.proposal
    ensures Times(es, es[j].body.proposal) >= 2
  {
    var short := es[..|es| - 1];
    if j < |short| {
      TimesOfPair(short, i, j);
    } else {
      assert es[i] == short[i] && short[i] in short;
      TimesOfUnknown(short, es[i].body.proposal);
    }
  }

  /** In a run whose edits all go through, no proposal is executed twice. */
  lemma NoProposalExecutedTwice(telegram: bool, ops: seq<Op>)
    requires forall p: nat :: Failures(telegram, ops, p) == 0
    ensures NoneTwice(Run(telegram, START, ops).executed)
  {
    var es := Run(telegram, START, ops).executed;
    forall i, j | 0 <= i < j < |es| ensures es[i].body.proposal != es[j].body.proposal {
      ExecutionsAreFailedEditsAndOneMore(telegram, ops, es[j].body.proposal);
      if es[i].body.proposal == es[j].body.proposal {
        TimesOfPair(es, i, j);
        assert false;
      }
    }
  }

  /** Outside Telegram there is no message to edit, so that holds of every run. */
  lemma {:induction false} NoneTwiceOutsideTelegram(ops: seq<Op>)
    ensures forall p: nat :: Failures(false, ops, p) == 0
    ensures NoneTwice(Run(false, START, ops).executed)
  {
    if ops != [] {
      NoneTwiceOutsideTelegram(ops[..|ops| - 1]);
    }
    NoProposalExecutedTwice(false, ops);
  }

  /** A failed edit ends the turn after the execution, with the executed write still pending. */
  lemma FailedEditLeavesTheRow(s: State, t: Turn, saves: seq<Save>)
    requires EditFails(true, s, t)
    ensures var after := Step(true, s, Request(t, saves));
            && after.write.Some? && t.now < after.write.value.expiresAt
            && after.executed == s.executed + [Execution(after.write.value.body, t.now, after.write.value.expiresAt)]
  {
    var (s1, o1) := SwitchTurn(s, t);
    SwitchTurnExecutesOnce(s, t);
    var (s2, o2) := ConfirmTurn(true, s1, t);
    var (s', os) := ResolveTurn(true, s, t);
    assert os[1] == Raised && os[1] in os;
  }

  /** A confirmation that meets no switch prompt executes the active write. */
  lemma ConfirmationExecutes(s: State, t: Turn, saves: seq<Save>)
    requires !SwitchPending(s, t.now) && s.write.Some? && t.now < s.write.value.expiresAt
    requires IsConfirm(t.prompt) && t.execution.Some?
    ensures var w := s.write.value;
            Step(true, s, Request(t, saves)).executed == s.executed + [Execution(w.body, t.now, w.expiresAt)]
  {
    var (s1, o1) := SwitchTurn(s, t);
    assert s1.write == s.write && s1.executed == s.executed && !o1.Raised?;
    var (s2, o2) := ConfirmTurn(true, s1, t);
    ConfirmTurnExecutesOnce(true, s1, t);
    AnswerTurnExecutesNothing(s2, t);
    var (s', os) := ResolveTurn(true, s, t);
    assert os[1] == o2 && o2 in os;
  }

  /** After a failed edit the executed write is still pending: until it runs out, the next typed
      confirmation that meets no switch prompt, or a press of its button, executes it again. */
  lemma LeftoverExecutesAgain(s: State, t: Turn, saves: seq<Save>, again: Turn, more: seq<Save>)
    requires EditFails(true, s, t)
    requires var after := Step(true, s, Request(t, saves));
             && !SwitchPending(after, again.now)
             && again.now < after.write.value.expiresAt
             && IsConfirm(again.prompt) && again.execution.Some?
    ensures var after, w := Step(true, s, Request(t, saves)), Step(true, s, Request(t, saves)).write.value;
            var e, e' := Execution(w.body, t.now, w.expiresAt), Execution(w.body, again.now, w.expiresAt);
            && after.executed == s.executed + [e]
            && Step(true, after, Request(again, more)).executed == s.executed + [e, e']
            && Step(true, after, Confirm(w.pk, again.now, again.execution)).executed == s.executed + [e, e']
  {
    FailedEditLeavesTheRow(s, t, saves);
    ConfirmationExecutes(Step(true, s, Request(t, saves)), again, more);
  }

  /** The prompt is no command, confirmation or cancellation and names no role. */
  predicate SmallTalk(t: Turn) {
    t.command.None? && !IsConfirm(t.prompt) && !IsCancel(t.prompt) && t.roleWord.None?
  }

  /** A proposal shown in Telegram, a "yes" whose edit fails and a second "yes": from the empty
      channel four operations execute the one proposal twice. */
  lemma FailedEditExecutesTwice(ask: Turn, save: Save, yes: Turn)
    requires ask.now == 0 && SmallTalk(ask) && save.SaveWrite?
    requires yes.now == 1 && yes.prompt == "yes" && yes.command.None?
    requires yes.execution == Some(Succeeded) && yes.editRaises
    ensures var ops := [Request(ask, [save]), Attach(0, 5, Some(7)), Request(yes, []), Request(yes, [])];
            Times(Run(true, START, ops).executed, 0) == 2
  {
    var proposed := ApplySave(START, save, 0);
    var shown := AttachMessage(proposed, 0, 5, Some(7));
    var ops := [Request(ask, [save]), Attach(0, 5, Some(7)), Request(yes, []), Request(yes, [])];
    assert ops[..3][..2][..1][..0] == [] && ops[..3][..2][..1] == [ops[0]] && ops[..3][..2] == ops[..2];
    assert ApplySaves(START, [save], 0) == proposed;
    assert Run(true, START, ops[..1]) == proposed;
    assert ops[..2][..1] == ops[..1];
    assert Run(true, START, ops[..2]) == shown;
    LeftoverExecutesAgain(shown, yes, [], yes, []);
    assert Run(true, START, ops[..3]) == Step(true, shown, ops[2]);
    var e := Execution(shown.write.value.body, 1, TTL);
    assert Run(true, START, ops).executed == [e, e];
    TimesOfNext([e], e, 0);
    TimesOfNext([], e, 0);
  }

  /** A button carries the primary key of its row, and a later proposal overwrites the row in
      place. The confirm button under the message of an earlier proposal executes the later one. */
  lemma ButtonFollowsTheRow(s: State, save: Save, savedAt: int, now: int, reply: Reply)
    requires Shape(s) && s.write.Some? && save.SaveWrite?
    requires savedAt <= now < savedAt + TTL
    ensures var s' := PressConfirm(ApplySave(s, save, savedAt), s.write.value.pk, now, Some(reply));
            && |s'.executed| == |s.executed| + 1
            && s'.executed[|s.executed|].body.proposal != s.write.value.body.proposal
            && s'.executed[|s.executed|].body.payload == save.payload
  {
    assert Awaits(s, s.write.value.body.proposal);
  }
}
