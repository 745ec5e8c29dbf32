/**
 What a prompt or a press of a button runs, executes and leaves behind, told from the stored rows
 and the words of the turn alone.
 */
module RosterEffects {
  import opened Wrappers
  import opened RosterTurns
  import opened RosterSafety

  // ---------------------------------------------------------------------------------------
  // What a tool leaves pending

  /** The k-th save is the last one that proposes a write. */
  ghost predicate LastProposal(saves: seq<Save>, k: int) {
    && 0 <= k < |saves| && saves[k].SaveWrite?
    && forall j | k < j < |saves| :: saves[j].SaveQuestion?
  }

  /** The write says what the save proposed, for ten minutes, and was shown in no message yet. */
  predicate Proposes(w: Write, save: Save, now: int)
    requires save.SaveWrite?
  {
    && w.body.tool == save.tool && w.body.action == save.action && w.body.payload == save.payload
    && w.body.summary == save.summary && w.body.preview == save.preview
    && w.expiresAt == now + 600 && w.telegram == None
  }

  /** The last proposal is the pending write, under the key of the write before it if there was one;
      a question is pending after a question, and none after a proposal. */
  lemma {:induction false} SavesLeave(s: State, saves: seq<Save>, now: int, k: int)
    ensures var s' := ApplySaves(s, saves, now);
            && (LastProposal(saves, k) ==>
                  && s'.write.Some? && Proposes(s'.write.value, saves[k], now)
                  && s'.write.value.body.proposal >= s.nextProposal
                  && s'.write.value.pk == if s.write.Some? then s.write.value.pk else s.nextPk)
            && ((forall save <- saves :: save.SaveQuestion?) ==> s'.write == s.write && s'.nextPk == s.nextPk)
            && (saves == [] ==> s' == s)
            && (saves != [] ==>
                  var last := saves[|saves| - 1];
                  s'.question == if last.SaveWrite? then None
                                 else Some(Question(last.tool, last.field, Plain(last.args), last.candidates,
                                                    now + 600)))
            && s'.calls == s.calls && s'.executed == s.executed && s'.nextProposal >= s.nextProposal
    decreases |saves|
  {
    if saves != [] {
      var n := |saves| - 1;
      SavesExecuteNothing(s, saves[..n], now);
      if k == n && exists j :: LastProposal(saves[..n], j) {
        var j :| LastProposal(saves[..n], j);
        SavesLeave(s, saves[..n], now, j);
      } else {
        SavesLeave(s, saves[..n], now, k);
        if k == n {
          NoProposals(saves[..n]);
        }
      }
      assert saves == saves[..n] + [saves[n]];
    }
  }

  lemma {:induction false} NoProposals(saves: seq<Save>)
    requires forall j :: !LastProposal(saves, j)
    ensures forall save <- saves :: save.SaveQuestion?
  {
    if saves != [] {
      var n := |saves| - 1;
      assert !LastProposal(saves, n);
      forall j ensures !LastProposal(saves[..n], j) {
        assert LastProposal(saves[..n], j) ==> LastProposal(saves, j);
      }
      NoProposals(saves[..n]);
      assert saves == saves[..n] + [saves[n]];
    }
  }

  /** A row counts until the instant it expires; a question that ran out is not answered but
      dropped, and so is the prompt of a switch. */
  lemma RowsRunOut(s: State, t: Turn)
    ensures var a := Active(s, t.now);
            && a == s.(question := a.question, write := a.write)
            && (a.question == if s.question.Some? && t.now < s.question.value.expiresAt then s.question else None)
            && (a.write == if s.write.Some? && t.now < s.write.value.expiresAt then s.write else None)
    ensures s.question.None? || s.question.value.expiresAt <= t.now ==>
              AnswerTurn(s, t) == (s.(question := None), Unhandled)
    ensures s.question.Some? && s.question.value.expiresAt <= t.now && t.command.None? ==>
              SwitchTurn(s, t) == (s.(question := None), Unhandled)
  {
  }

  // ---------------------------------------------------------------------------------------
  // Opening a switch

  /** The tool that something is pending for: that of a question, else that of a write. */
  function PendingTool(a: State): Option<string> {
    if a.question.Some? then Some(a.question.value.tool)
    else if a.write.Some? then Some(a.write.value.body.tool)
    else None
  }

  /** A switch prompt is put up exactly when the prompt is an explicit command for another tool than
      the one something is pending for; it stays up for ten minutes. Otherwise nothing happens to
      an active row, unless a prompt is up already. */
  lemma OpensIff(s: State, t: Turn)
    requires !SwitchPending(s, t.now)
    ensures var a, (s', o) := Active(s, t.now), SwitchTurn(s, t);
            && (Opens(s, t) <==> t.command.Some? && t.isExplicit && PendingTool(a).Some?
                                 && PendingTool(a).value != t.command.value.tool)
            && s'.calls == s.calls && s'.executed == s.executed
            && (Opens(s, t) ==>
                  && s'.question.Some? && s'.question.value.field == SwitchConfirm
                  && s'.question.value.expiresAt == t.now + 600
                  && s'.write == a.write && o == Reminder)
            && (!Opens(s, t) ==> Active(s', t.now) == a && o == Unhandled)
  {
  }

  // ---------------------------------------------------------------------------------------
  // Accepting a switch

  /** The tool has left a proposal and asks to have it confirmed. */
  ghost predicate AsksToConfirm(run: ToolRun) {
    run.reply == Some(PendingConfirmation) && exists k :: LastProposal(run.saves, k)
  }

  /** What running the accepted command comes to, when it proposes nothing to be confirmed, or when
      its k-th save is the last proposal. */
  ghost predicate RunsCommand(s: State, cmd: Command, t: Turn, k: int, s': State, o: Outcome) {
    && s'.calls == s.calls + [ToolCall(cmd.tool, cmd.args)]
    && (o.Raised? <==> t.switchRun.reply.None? || (AsksToConfirm(t.switchRun) && t.execution.None?))
    && (!o.Raised? ==> NoRows(s'))
    && (!o.Raised? && !AsksToConfirm(t.switchRun) ==> o == Executed(t.switchRun.reply.value))
    && (o.Raised? || !AsksToConfirm(t.switchRun) ==> s'.executed == s.executed)
    && (!o.Raised? && AsksToConfirm(t.switchRun) && LastProposal(t.switchRun.saves, k) ==>
          && o == Executed(t.execution.value)
          && |s'.executed| == |s.executed| + 1 && s'.executed[..|s.executed|] == s.executed
          && var e, save := s'.executed[|s.executed|], t.switchRun.saves[k];
             && e.at == t.now && e.expiresAt == t.now + 600 && e.body.proposal >= s.nextProposal
             && e.body.tool == save.tool && e.body.action == save.action && e.body.payload == save.payload
             && e.body.summary == save.summary && e.body.preview == save.preview)
  }

  lemma ExplicitRunsCommand(s: State, cmd: Command, t: Turn, k: int)
    ensures var (s', o) := ExecuteExplicit(s, ToolCall(cmd.tool, cmd.args), t); RunsCommand(s, cmd, t, k, s', o)
  {
    var c := ClearAll(s);
    var called := c.(calls := c.calls + [ToolCall(cmd.tool, cmd.args)]);
    SavesExecuteNothing(called, t.switchRun.saves, t.now);
    if j :| LastProposal(t.switchRun.saves, j) {
      SavesLeave(called, t.switchRun.saves, t.now, j);
      assert LastProposal(t.switchRun.saves, k) ==> k == j;
    } else {
      NoProposals(t.switchRun.saves);
      SavesLeave(called, t.switchRun.saves, t.now, 0);
    }
  }

  /** Accepting a switch, at once or after any number of unrelated requests and replies, runs the
      tool of the command that opened it with that command's own arguments, and executes what the
      tool proposes. What had been pending is gone. */
  lemma AcceptedSwitchRunsTheCommand(telegram: bool, s: State, opening: Turn, ops: seq<Op>, t: Turn, k: int)
    requires Opens(s, opening) && StillUp(opening, t) && IsYes(t.prompt)
    requires forall op <- ops :: Idles(opening, op)
    ensures var before := Run(telegram, SwitchTurn(s, opening).0, ops);
            var (s', o) := SwitchTurn(before, t);
            && opening.command.Some?
            && before.calls == s.calls && before.executed == s.executed && before.nextProposal == s.nextProposal
            && RunsCommand(s, opening.command.value, t, k, s', o)
  {
    SwitchStaysUp(telegram, s, opening, ops);
    var before := Run(telegram, SwitchTurn(s, opening).0, ops);
    ExplicitRunsCommand(before.(question := None), opening.command.value, t, k);
  }

  // ---------------------------------------------------------------------------------------
  // A pending write

  /** The role parser sees no role in a word that confirms or cancels. */
  ghost predicate NamesRole(w: Write, t: Turn) {
    && t.roleWord.Some? && !IsConfirm(t.prompt) && !IsCancel(t.prompt)
    && w.body.action == "assign_staff"
    && "staff_id" in w.body.payload && w.body.payload["staff_id"] != JNull
    && "course_id" in w.body.payload && w.body.payload["course_id"] != JNull
  }

  /** With an active write, a cancel word drops all rows; a role named for an assignment proposes it
      anew; a confirming word in Telegram executes it; anything else is reminded of it. */
  lemma PendingWriteAnswers(telegram: bool, s: State, t: Turn)
    requires s.write.Some? && t.now < s.write.value.expiresAt
    ensures var w, (s', o) := s.write.value, ConfirmTurn(telegram, s, t);
            var executes := telegram && IsConfirm(t.prompt) && t.execution.Some?;
            && (s'.executed == if executes then s.executed + [Execution(w.body, t.now, w.expiresAt)] else s.executed)
            && (IsCancel(t.prompt) ==> NoRows(s') && s'.calls == s.calls && o == Cancelled)
            && (!NamesRole(w, t) ==> s'.calls == s.calls)
            && (executes && o.Executed? ==> o.reply == t.execution.value)
            && (telegram && IsConfirm(t.prompt) && t.execution.None? ==> s' == s && o == Raised)
            && (!IsCancel(t.prompt) && !NamesRole(w, t) && !(telegram && IsConfirm(t.prompt)) ==>
                  s' == s && o == Reminder)
  {
    if !IsCancel(t.prompt) && NamesRole(s.write.value, t) {
      var c := s.(write := None);
      SavesExecuteNothing(c.(calls := c.calls + [OverrideCall(s.write.value, t.roleWord.value)]),
                          t.roleRun.saves, t.now);
    }
  }

  /** Without an active write the resolver does nothing but drop the one that ran out. */
  lemma NoWriteNoAnswer(telegram: bool, s: State, t: Turn)
    requires s.write.None? || s.write.value.expiresAt <= t.now
    ensures ConfirmTurn(telegram, s, t) == (s.(write := None), Unhandled)
  {
  }

  /** The call asks for the same person, course and weekdays, with another role. */
  predicate AssignsAnew(body: WriteBody, role: string, call: ToolCall)
    requires "staff_id" in body.payload && "course_id" in body.payload
  {
    && call.tool == "assign_staff_to_course"
    && call.args.Keys == {"course_id", "user_id", "weekdays", "role_seniority"}
    && call.args["course_id"] == body.payload["course_id"]
    && call.args["user_id"] == body.payload["staff_id"]
    && call.args["weekdays"] == (if "weekdays" in body.preview then body.preview["weekdays"] else JNull)
    && call.args["role_seniority"] == JText(role)
  }

  lemma OverrideAssignsAnew(w: Write, role: string)
    requires "staff_id" in w.body.payload && "course_id" in w.body.payload
    ensures AssignsAnew(w.body, role, OverrideCall(w, role))
  {
  }

  /** Naming a role asks for the same person, course and weekdays with that role. The old proposal is
      not executed; the new one stands in its place, and in its Telegram message if it is to be
      confirmed. */
  lemma NamedRoleProposesAnew(telegram: bool, s: State, t: Turn, k: int)
    requires s.write.Some? && t.now < s.write.value.expiresAt && NamesRole(s.write.value, t)
    ensures var w, (s', o) := s.write.value, ConfirmTurn(telegram, s, t);
            && |s'.calls| == |s.calls| + 1 && s'.calls[..|s.calls|] == s.calls
            && var call := s'.calls[|s.calls|];
               && AssignsAnew(w.body, t.roleWord.value, call)
               && s'.executed == s.executed
               && (o == if t.roleRun.reply.None? then Raised else Executed(t.roleRun.reply.value))
               && ((forall save <- t.roleRun.saves :: save.SaveQuestion?) ==> s'.write == None)
               && (LastProposal(t.roleRun.saves, k) ==>
                     && s'.write.Some? && s'.write.value.body.proposal >= s.nextProposal
                     && Proposes(s'.write.value.(telegram := None), t.roleRun.saves[k], t.now)
                     && s'.write.value.telegram ==
                          if t.roleRun.reply == Some(PendingConfirmation) then w.telegram else None)
  {
    var w, c := s.write.value, s.(write := None);
    var call := OverrideCall(w, t.roleWord.value);
    OverrideAssignsAnew(w, t.roleWord.value);
    SavesLeave(c.(calls := c.calls + [call]), t.roleRun.saves, t.now, k);
  }

  // ---------------------------------------------------------------------------------------
  // A pending question

  /** `after` is `args` with one argument set and others taken away. */
  ghost predicate Sets(args: Args, after: Args, key: string, picked: int, gone: set<string>) {
    && key in after && after[key] == JInt(picked)
    && forall other: string | other != key ::
         && (other in after <==> other in args && other !in gone)
         && (other in after ==> after[other] == args[other])
  }

  /** The argument that a choice sets, and the questions it settles. */
  ghost predicate Chooses(field: Field, args: Args, after: Args, picked: int) {
    match field
    case Subject => Sets(args, after, "user_id", picked, {"query", "student_query", "staff_query"})
    case PointType => Sets(args, after, "point_type_id", picked, {"point_type_query"})
    case CoursePick => Sets(args, after, "course_id", picked, {"course_query"})
    case CourseRole => Sets(args, after, "course_role_id", picked, {"course_role_query", "role_seniority"})
    case _ => false
  }

  lemma PickChooses(args: Args, field: Field, picked: int)
    requires Answerable(field)
    ensures Chooses(field, args, FillPick(args, field, picked), picked)
  {
  }

  predicate CanBeAnswered(field: Field) { field != SwitchConfirm && !field.OtherField? }

  /** An active question of a tool: a cancel word drops it, a choice runs its tool with the choice
      filled in, and anything else is reminded of it. An answer that asks again leaves what the tool
      saved; one that ends the matter leaves no question. */
  lemma PendingQuestionAnswers(s: State, t: Turn)
    requires s.question.Some? && t.now < s.question.value.expiresAt && !IsSwitch(s.question.value)
    requires s.question.value.partial.Plain?
    ensures var row, (s', o) := s.question.value, AnswerTurn(s, t);
            var answers := !IsCancel(t.prompt) && t.pick.Some? && CanBeAnswered(row.field);
            && s'.executed == s.executed
            && (IsCancel(t.prompt) ==> s' == s.(question := None) && o == Cancelled)
            && (!IsCancel(t.prompt) && !answers ==> s' == s && o == Reminder)
            && (answers ==>
                  && |s'.calls| == |s.calls| + 1 && s'.calls[..|s.calls|] == s.calls
                  && s'.calls[|s.calls|].tool == row.tool
                  && Chooses(row.field, row.partial.args, s'.calls[|s.calls|].args, t.pick.value)
                  && (t.answerRun.reply == None ==> o == Raised)
                  && (t.answerRun.reply == Some(Ambiguous) ==> o == Reminder)
                  && (t.answerRun.reply.Some? && t.answerRun.reply != Some(Ambiguous) ==>
                        s'.question == None && o == Executed(t.answerRun.reply.value)))
  {
    if t.pick.Some? && Answerable(s.question.value.field) {
      var row := s.question.value;
      var call := ToolCall(row.tool, FillPick(PartialArgs(row.partial), row.field, t.pick.value));
      PickChooses(row.partial.args, row.field, t.pick.value);
      SavesExecuteNothing(s.(calls := s.calls + [call]), t.answerRun.saves, t.now);
    }
  }

  // ---------------------------------------------------------------------------------------
  // Words

  /** Every word that confirms a write also accepts a switch, and "yeah" accepts one only; just "no"
      both declines a switch and cancels a row; no word means yes and no. */
  lemma WordsAgree(p: string)
    ensures IsConfirm(p) <==> IsYes(p) && p != "yeah"
    ensures IsYes("yeah") && IsYes("yes") && IsYes("y") && IsYes("confirm")
    ensures IsNo(p) && IsCancel(p) <==> p == "no"
    ensures IsYes(p) ==> !IsNo(p) && !IsCancel(p)
    ensures IsNo("n") && IsNo("nope")
    ensures forall word <- ["cancel", "stop", "abort", "nevermind", "never mind"] :: IsCancel(word)
  {
  }

  // ---------------------------------------------------------------------------------------
  // Buttons and messages

  /** The confirm button of an active write executes it and the cancel button does not; both leave no
      row, like a press after it ran out. A button of another row does nothing. */
  lemma ButtonsDo(s: State, pk: nat, now: int, execution: Option<Reply>)
    ensures var mine := s.write.Some? && s.write.value.pk == pk;
            var (confirmed, cancelled) := (PressConfirm(s, pk, now, execution), PressCancel(s, pk));
            && (!mine ==> confirmed == s && cancelled == s)
            && (mine ==>
                  && NoRows(cancelled) && cancelled == s.(question := None, write := None)
                  && (s.write.value.expiresAt <= now ==> confirmed == cancelled)
                  && (now < s.write.value.expiresAt && execution.None? ==> confirmed == s)
                  && (now < s.write.value.expiresAt && execution.Some? ==>
                        confirmed == cancelled.(executed := s.executed +
                                                  [Execution(s.write.value.body, now, s.write.value.expiresAt)])))
  {
  }

  /** A reply leaves everything as it is, but an active write remembers the message it was shown in. */
  lemma RepliesAttach(s: State, now: int, chat: int, message: Option<int>)
    ensures var s' := AttachMessage(s, now, chat, message);
            && s' == s.(write := s'.write)
            && (s'.write.Some? <==> s.write.Some? && now < s.write.value.expiresAt)
            && (s'.write.Some? ==>
                  && s'.write.value == s.write.value.(telegram := s'.write.value.telegram)
                  && (message.Some? ==> s'.write.value.telegram == Some((chat, message.value)))
                  && (message.None? ==> s'.write.value.telegram == None))
  {
  }

  // ---------------------------------------------------------------------------------------
  // A whole request

  /** The resolvers see the prompt one after the other: first a switch, then the write, then the
      question, each on what the one before left. One that raises ends the request. Only when none
      of them acted or reminded does the model run tools of its own. */
  lemma ResolversRunInOrder(telegram: bool, s: State, t: Turn, saves: seq<Save>)
    ensures var (s1, o1) := SwitchTurn(s, t);
            var (s2, o2) := ConfirmTurn(telegram, s1, t);
            var (s3, o3) := AnswerTurn(s2, t);
            var after := Step(telegram, s, Request(t, saves));
            && (o1.Raised? ==> after == s1)
            && (!o1.Raised? && o2.Raised? ==> after == s2)
            && (!o1.Raised? && !o2.Raised? ==>
                  after == if o3.Raised? || Acted(o1) || Acted(o2) || Acted(o3) then s3
                           else ApplySaves(s3, saves, t.now))
  {
    var (s', os) := ResolveTurn(telegram, s, t);
    InOrder(telegram, s, t);
    StepGoes(telegram, s, t, saves, os);
  }

  /** Whether the model's tools follow depends on the outcomes alone. */
  lemma StepGoes(telegram: bool, s: State, t: Turn, saves: seq<Save>, os: seq<Outcome>)
    requires ResolveTurn(telegram, s, t).1 == os
    ensures var s' := ResolveTurn(telegram, s, t).0;
            Step(telegram, s, Request(t, saves)) ==
              if exists k :: 0 <= k < |os| && (os[k].Raised? || Acted(os[k])) then s' else ApplySaves(s', saves, t.now)
  {
    if k :| 0 <= k < |os| && (os[k].Raised? || Acted(os[k])) {
      assert os[k] in os;
    }
  }

  lemma InOrder(telegram: bool, s: State, t: Turn)
    ensures var (s1, o1) := SwitchTurn(s, t);
            var (s2, o2) := ConfirmTurn(telegram, s1, t);
            var (s3, o3) := AnswerTurn(s2, t);
            ResolveTurn(telegram, s, t) ==
              if o1.Raised? then (s1, [o1]) else if o2.Raised? then (s2, [o1, o2]) else (s3, [o1, o2, o3])
  {
  }

  predicate Acted(o: Outcome) { o.Executed? || o.Reminder? }
}
