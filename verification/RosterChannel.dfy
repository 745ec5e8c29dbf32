/** The pending rows of one user and channel, updated in place by the resolvers. */
module RosterChannel {
  import opened Wrappers
  import opened RosterTurns

  class Channel {
    const telegram: bool
    var question: Option<Question>
    var write: Option<Write>
    var nextPk: nat
    var nextProposal: nat
    var calls: seq<ToolCall>
    var executed: seq<Execution>

    function View(): State
      reads this
    {
      State(question, write, nextPk, nextProposal, calls, executed)
    }

    constructor (telegram: bool)
      ensures View() == START && this.telegram == telegram
    {
      this.telegram := telegram;
      question, write, nextPk, nextProposal, calls, executed := None, None, 0, 0, [], [];
    }

    // -------------------------------------------------------------------------------------
    // Rows

    method SavePending(tool: string, field: Field, partial: Partial, candidates: seq<string>, now: int)
      modifies this
      ensures View() == SaveQuestionRow(old(View()), tool, field, partial, candidates, now)
    {
      question := Some(Question(tool, field, partial, candidates, now + TTL));
    }

    method ClearPending()
      modifies this
      ensures View() == old(View()).(question := None)
    {
      question := None;
    }

    method ClearWriteConfirmation()
      modifies this
      ensures View() == old(View()).(write := None)
    {
      write := None;
    }

    method ClearAllRosterPending()
      modifies this
      ensures View() == ClearAll(old(View()))
    {
      ClearWriteConfirmation();
      ClearPending();
    }

    method GetActivePending(now: int) returns (row: Option<Question>)
      modifies this
      ensures View() == DropStaleQuestion(old(View()), now)
      ensures row == question && (row.Some? ==> now < row.value.expiresAt)
    {
      row := question;
      if row.Some? && row.value.expiresAt <= now {
        question := None;
        row := None;
      }
    }

    method SaveWriteConfirmation(body: WriteBody, now: int)
      modifies this
      ensures View() == SaveWriteRow(old(View()), body, now)
    {
      ClearPending();
      if write.Some? {
        write := Some(write.value.(body := body, expiresAt := now + TTL, telegram := None));
      } else {
        write := Some(Write(nextPk, body, now + TTL, None));
        nextPk := nextPk + 1;
      }
    }

    method GetActiveWriteConfirmation(now: int) returns (row: Option<Write>)
      modifies this
      ensures View() == DropStaleWrite(old(View()), now)
      ensures row == write && (row.Some? ==> now < row.value.expiresAt)
    {
      row := write;
      if row.Some? && row.value.expiresAt <= now {
        write := None;
        row := None;
      }
    }

    // -------------------------------------------------------------------------------------
    // Tools and execution

    method SaveAll(saves: seq<Save>, now: int)
      modifies this
      ensures View() == ApplySaves(old(View()), saves, now)
    {
      assert saves[..|saves|] == saves;
      for i := 0 to |saves|
        invariant View() == ApplySaves(old(View()), saves[..i], now)
      {
        assert saves[..i + 1][..i] == saves[..i];
        match saves[i]
        case SaveQuestion(tool, field, args, candidates) =>
          SavePending(tool, field, Plain(args), candidates, now);
        case SaveWrite(tool, action, payload, summary, preview) =>
          SaveWriteConfirmation(WriteBody(nextProposal, tool, action, payload, summary, preview), now);
          nextProposal := nextProposal + 1;
      }
    }

    method CallTool(call: ToolCall, run: ToolRun, now: int) returns (reply: Option<Reply>)
      modifies this
      ensures View() == RunTool(old(View()), call, run, now) && reply == run.reply
    {
      calls := calls + [call];
      SaveAll(run.saves, now);
      reply := run.reply;
    }

    method ExecutePending(w: Write, now: int)
      modifies this
      ensures View() == Execute(old(View()), w, now)
    {
      executed := executed + [Execution(w.body, now, w.expiresAt)];
    }

    // -------------------------------------------------------------------------------------
    // Resolvers

    method ExecuteExplicitCommand(call: ToolCall, t: Turn) returns (o: Outcome)
      modifies this
      ensures (View(), o) == ExecuteExplicit(old(View()), call, t)
    {
      ClearAllRosterPending();
      var reply := CallTool(call, t.switchRun, t.now);
      if reply.None? {
        return Raised;
      }
      var result := reply.value;
      if result == PendingConfirmation {
        var pending := GetActiveWriteConfirmation(t.now);
        if pending.Some? {
          if t.execution.None? {
            return Raised;
          }
          ExecutePending(pending.value, t.now);
          result := t.execution.value;
        }
      }
      ClearAllRosterPending();
      o := Executed(result);
    }

    method RestorePriorPending(snapshot: Snapshot, now: int)
      modifies this
      ensures View() == Restore(old(View()), snapshot, now)
    {
      match snapshot
      case NoSnapshot =>
      case OfQuestion(tool, field, partial, candidates) =>
        SavePending(tool, field, partial, candidates, now);
      case OfWrite(body) =>
        SaveWriteConfirmation(body, now);
    }

    method ResolveSwitchConfirm(row: Question, t: Turn) returns (o: Outcome)
      modifies this
      ensures (View(), o) == ResolveSwitch(old(View()), row, t)
    {
      if IsYes(t.prompt) {
        var call := if row.partial.Switch? then ToolCall(row.partial.newTool, row.partial.newArgs)
                    else ToolCall("", map[]);
        ClearPending();
        o := ExecuteExplicitCommand(call, t);
      } else if IsNo(t.prompt) {
        ClearPending();
        RestorePriorPending(PriorOf(row), t.now);
        o := Reminder;
      } else if IsCancel(t.prompt) {
        ClearPending();
        RestorePriorPending(PriorOf(row), t.now);
        o := Cancelled;
      } else {
        o := Reminder;
      }
    }

    method TryResolveSwitch(t: Turn) returns (o: Outcome)
      modifies this
      ensures (View(), o) == SwitchTurn(old(View()), t)
    {
      var row := GetActivePending(t.now);
      if row.Some? && IsSwitch(row.value) {
        o := ResolveSwitchConfirm(row.value, t);
        return;
      }
      if t.command.None? {
        return Unhandled;
      }
      var disambig := GetActivePending(t.now);
      var pending := GetActiveWriteConfirmation(t.now);
      if disambig.None? && pending.None? {
        return Unhandled;
      }
      if !Conflicts(t.command.value, disambig, pending) {
        return Unhandled;
      }
      if !t.isExplicit {
        return Unhandled;
      }
      var partial := Switch(t.command.value.tool, t.command.value.args, SnapshotOf(disambig, pending));
      SavePending(t.command.value.tool, SwitchConfirm, partial, [], t.now);
      o := Reminder;
    }

    method TryRoleOverride(w: Write, t: Turn) returns (o: Outcome)
      requires write == Some(w)
      modifies this
      ensures if TakesRoleOverride(w, t) then (View(), o) == OverrideRole(old(View()), w, t)
              else View() == old(View()) && o == Unhandled
    {
      var role := RoleOverride(t);
      if w.body.action != "assign_staff" || role.None? {
        return Unhandled;
      }
      var staffId, courseId := Lookup(w.body.payload, "staff_id"), Lookup(w.body.payload, "course_id");
      if staffId == JNull || courseId == JNull {
        return Unhandled;
      }
      ClearWriteConfirmation();
      var args := map["course_id" := courseId, "user_id" := staffId,
                      "weekdays" := Lookup(w.body.preview, "weekdays")];
      args := args["role_seniority" := JText(role.value)];
      var reply := CallTool(ToolCall("assign_staff_to_course", args), t.roleRun, t.now);
      if reply.None? {
        return Raised;
      }
      if reply.value == PendingConfirmation {
        var renewed := GetActiveWriteConfirmation(t.now);
        if renewed.Some? && w.telegram.Some? {
          write := Some(renewed.value.(telegram := w.telegram));
        }
      }
      o := Executed(reply.value);
    }

    /** Edits the message the write was shown in, if there is one; false when that raises. */
    method EditConfirmMessage(w: Write, t: Turn) returns (edited: bool)
      ensures !edited <==> w.telegram.Some? && t.editRaises
    {
      if w.telegram.None? {
        return true;
      }
      edited := !t.editRaises;
    }

    method TryResolveConfirmation(t: Turn) returns (o: Outcome)
      modifies this
      ensures (View(), o) == ConfirmTurn(telegram, old(View()), t)
    {
      var row := GetActiveWriteConfirmation(t.now);
      if row.None? {
        return Unhandled;
      }
      if IsCancel(t.prompt) {
        ClearAllRosterPending();
        return Cancelled;
      }
      o := TryRoleOverride(row.value, t);
      if o != Unhandled {
        return;
      }
      row := GetActiveWriteConfirmation(t.now);
      if !telegram {
        return Reminder;
      }
      if IsConfirm(t.prompt) {
        if t.execution.None? {
          return Raised;
        }
        ExecutePending(row.value, t.now);
        if t.execution.value == Succeeded {
          var edited := EditConfirmMessage(row.value, t);
          if !edited {
            return Raised;
          }
        }
        ClearAllRosterPending();
        return Executed(t.execution.value);
      }
      o := Reminder;
    }

    method TryResolvePendingTurn(t: Turn) returns (o: Outcome)
      modifies this
      ensures (View(), o) == AnswerTurn(old(View()), t)
    {
      var row := GetActivePending(t.now);
      if row.None? || IsSwitch(row.value) {
        return Unhandled;
      }
      if IsCancel(t.prompt) {
        ClearPending();
        return Cancelled;
      }
      if t.pick.None? {
        return Reminder;
      }
      var args := PartialArgs(row.value.partial);
      match row.value.field {
        case Subject =>
          args := args["user_id" := JInt(t.pick.value)];
          args := args - {"query", "student_query", "staff_query"};
        case PointType =>
          args := args["point_type_id" := JInt(t.pick.value)];
          args := args - {"point_type_query"};
        case CoursePick =>
          args := args["course_id" := JInt(t.pick.value)];
          args := args - {"course_query"};
        case CourseRole =>
          args := args["course_role_id" := JInt(t.pick.value)];
          args := args - {"course_role_query", "role_seniority"};
        case _ =>
          return Reminder;
      }
      var reply := CallTool(ToolCall(row.value.tool, args), t.answerRun, t.now);
      if reply.None? {
        return Raised;
      }
      if reply.value == Ambiguous {
        return Reminder;
      }
      ClearPending();
      o := Executed(reply.value);
    }

    /** The resolver sequence of `AIService.run`. */
    method Resolve(t: Turn) returns (os: seq<Outcome>)
      modifies this
      ensures (View(), os) == ResolveTurn(telegram, old(View()), t)
    {
      var o1 := TryResolveSwitch(t);
      if o1.Raised? {
        return [o1];
      }
      var o2 := TryResolveConfirmation(t);
      if o2.Raised? {
        return [o1, o2];
      }
      var o3 := TryResolvePendingTurn(t);
      os := [o1, o2, o3];
    }

    method Attach(now: int, chat: int, message: Option<int>)
      modifies this
      ensures View() == AttachMessage(old(View()), now, chat, message)
    {
      var pending := GetActiveWriteConfirmation(now);
      if pending.Some? {
        write := Some(pending.value.(telegram := if message.Some? then Some((chat, message.value)) else None));
      }
    }

    /** A press of the confirm or cancel button of a Telegram message. */
    method PressButton(pk: nat, confirm: bool, now: int, execution: Option<Reply>)
      modifies this
      ensures View() == if confirm then PressConfirm(old(View()), pk, now, execution)
                        else PressCancel(old(View()), pk)
    {
      if write.None? || write.value.pk != pk {
        return;
      }
      if write.value.expiresAt <= now || !confirm {
        ClearAllRosterPending();
        return;
      }
      if execution.Some? {
        ExecutePending(write.value, now);
        ClearAllRosterPending();
      }
    }
  }
}
