/**
 The pending-turn protocol of the roster assistant: per user and channel there is at most one
 disambiguation row and at most one write confirmation. Three resolvers run in sequence on the
 same prompt, a switch prompt overlays whatever was pending, and a Telegram button can confirm
 the stored write. What tools, the model and the prompt parsers answer is arbitrary.
 */
module RosterTurns {
  import opened Wrappers

  const TTL := 600 // seconds a pending row stays active

  /** The fields a tool may ask about. */
  type QuestionField = f: Field | f != SwitchConfirm witness Subject

  datatype Json = JNull | JInt(n: int) | JText(s: string) | JList(items: seq<Json>)

  type Args = map<string, Json>

  datatype Field = Subject | PointType | CoursePick | CourseRole | SwitchConfirm | OtherField(name: string)

  /** The `partial_args` of a disambiguation row: a tool's arguments, or those of a switch prompt. */
  datatype Partial =
    | Plain(args: Args)
    | Switch(newTool: string, newArgs: Args, prior: Snapshot)

  datatype Snapshot =
    | NoSnapshot
    | OfQuestion(tool: string, field: Field, partial: Partial, candidates: seq<string>)
    | OfWrite(body: WriteBody)

  /** What a write confirmation says, apart from its expiry and Telegram message.
      `proposal` identifies the tool call that proposed it; the table has no such column. */
  datatype WriteBody = WriteBody(
    proposal: nat, tool: string, action: string, payload: Args, summary: string, preview: Args)

  datatype Question = Question(
    tool: string, field: Field, partial: Partial, candidates: seq<string>, expiresAt: int)

  datatype Write = Write(pk: nat, body: WriteBody, expiresAt: int, telegram: Option<(int, int)>)

  datatype ToolCall = ToolCall(tool: string, args: Args)

  datatype Execution = Execution(body: WriteBody, at: int, expiresAt: int)

  /** The stored rows of one user and channel, and what has been done for them so far. */
  datatype State = State(
    question: Option<Question>,
    write: Option<Write>,
    nextPk: nat,
    nextProposal: nat,
    calls: seq<ToolCall>,
    executed: seq<Execution>)

  const START := State(None, None, 0, 0, [], [])

  /** One row that a tool saves while it runs; tools never save a switch prompt. */
  datatype Save =
    | SaveQuestion(tool: string, field: QuestionField, args: Args, candidates: seq<string>)
    | SaveWrite(tool: string, action: string, payload: Args, summary: string, preview: Args)

  /** The status of an answer: `Succeeded` is "ok", `Finished` is any status not tested for. */
  datatype Reply = PendingConfirmation | Ambiguous | Failed | Succeeded | Finished

  /** How one tool run goes: the rows it saves, then an answer, or an exception (None). */
  datatype ToolRun = ToolRun(saves: seq<Save>, reply: Option<Reply>)

  datatype Command = Command(tool: string, args: Args)

  /** Everything one turn is given. The prompt is stripped and lower-cased; the parses of
      regular expressions and the behaviour of tools are whatever the caller supplies. */
  datatype Turn = Turn(
    now: int,
    prompt: string,
    command: Option<Command>, // parse_roster_command
    isExplicit: bool,         // is_explicit_roster_command
    roleWord: Option<string>, // role named in the prompt, if any
    pick: Option<int>,        // parse_disambiguation_reply
    switchRun: ToolRun,
    roleRun: ToolRun,
    answerRun: ToolRun,
    execution: Option<Reply>, // what execute_roster_action returns; None when it raises
    editRaises: bool)         // whether an edit of the confirmed Telegram message raises

  datatype Outcome = Unhandled | Executed(reply: Reply) | Cancelled | Reminder | Raised

  predicate IsYes(p: string) { p in ["yes", "y", "yeah", "confirm"] }

  predicate IsNo(p: string) { p in ["no", "n", "nope"] }

  predicate IsConfirm(p: string) { p in ["confirm", "yes", "y"] }

  predicate IsCancel(p: string) {
    p in ["cancel", "nevermind", "never mind", "abort", "stop", "no"]
  }

  function Lookup(args: Args, key: string): Json {
    if key in args then args[key] else JNull
  }

  predicate IsSwitch(q: Question) { q.field == SwitchConfirm }

  // ---------------------------------------------------------------------------------------
  // The row operations, as functions of the stored state.

  function SaveQuestionRow(s: State, tool: string, field: Field, partial: Partial,
                           candidates: seq<string>, now: int): State {
    s.(question := Some(Question(tool, field, partial, candidates, now + TTL)))
  }

  /** Saving a write drops the disambiguation row and keeps the primary key of an existing write. */
  function SaveWriteRow(s: State, body: WriteBody, now: int): State {
    var pk := if s.write.Some? then s.write.value.pk else s.nextPk;
    s.(question := None,
       write := Some(Write(pk, body, now + TTL, None)),
       nextPk := if s.write.Some? then s.nextPk else s.nextPk + 1)
  }

  function DropStaleQuestion(s: State, now: int): State {
    if s.question.Some? && s.question.value.expiresAt <= now then s.(question := None) else s
  }

  function DropStaleWrite(s: State, now: int): State {
    if s.write.Some? && s.write.value.expiresAt <= now then s.(write := None) else s
  }

  function ClearAll(s: State): State { s.(question := None, write := None) }

  function ApplySave(s: State, save: Save, now: int): State {
    match save
    case SaveQuestion(tool, field, args, candidates) =>
      SaveQuestionRow(s, tool, field, Plain(args), candidates, now)
    case SaveWrite(tool, action, payload, summary, preview) =>
      SaveWriteRow(s, WriteBody(s.nextProposal, tool, action, payload, summary, preview), now)
        .(nextProposal := s.nextProposal + 1)
  }

  function ApplySaves(s: State, saves: seq<Save>, now: int): State
    decreases |saves|
  {
    if saves == [] then s
    else ApplySave(ApplySaves(s, saves[..|saves| - 1], now), saves[|saves| - 1], now)
  }

  function RunTool(s: State, call: ToolCall, run: ToolRun, now: int): State {
    ApplySaves(s.(calls := s.calls + [call]), run.saves, now)
  }

  function Execute(s: State, w: Write, now: int): State {
    s.(executed := s.executed + [Execution(w.body, now, w.expiresAt)])
  }

  // ---------------------------------------------------------------------------------------
  // The switch resolver.

  function SnapshotOf(q: Option<Question>, w: Option<Write>): Snapshot {
    if q.Some? && !IsSwitch(q.value) then
      OfQuestion(q.value.tool, q.value.field, q.value.partial, q.value.candidates)
    else if w.Some? then OfWrite(w.value.body)
    else NoSnapshot
  }

  function Restore(s: State, snapshot: Snapshot, now: int): State {
    match snapshot
    case NoSnapshot => s
    case OfQuestion(tool, field, partial, candidates) =>
      SaveQuestionRow(s, tool, field, partial, candidates, now)
    case OfWrite(body) => SaveWriteRow(s, body, now)
  }

  function PriorOf(q: Question): Snapshot {
    if q.partial.Switch? then q.partial.prior else NoSnapshot
  }

  predicate Conflicts(cmd: Command, q: Option<Question>, w: Option<Write>) {
    if q.Some? && !IsSwitch(q.value) then q.value.tool != cmd.tool
    else w.Some? && w.value.body.tool != cmd.tool
  }

  function ExecuteExplicit(s: State, call: ToolCall, t: Turn): (State, Outcome) {
    var ran := RunTool(ClearAll(s), call, t.switchRun, t.now);
    match t.switchRun.reply
    case None => (ran, Raised)
    case Some(PendingConfirmation) =>
      var active := DropStaleWrite(ran, t.now);
      if active.write.None? then (ClearAll(active), Executed(PendingConfirmation))
      else if t.execution.None? then (active, Raised)
      else (ClearAll(Execute(active, active.write.value, t.now)), Executed(t.execution.value))
    case Some(reply) => (ClearAll(ran), Executed(reply))
  }

  function ResolveSwitch(s: State, row: Question, t: Turn): (State, Outcome) {
    if IsYes(t.prompt) then
      var call := if row.partial.Switch? then ToolCall(row.partial.newTool, row.partial.newArgs)
                  else ToolCall("", map[]);
      ExecuteExplicit(s.(question := None), call, t)
    else if IsNo(t.prompt) then
      (Restore(s.(question := None), PriorOf(row), t.now), Reminder)
    else if IsCancel(t.prompt) then
      (Restore(s.(question := None), PriorOf(row), t.now), Cancelled)
    else (s, Reminder)
  }

  function SwitchTurn(s: State, t: Turn): (State, Outcome) {
    var s0 := DropStaleQuestion(s, t.now);
    if s0.question.Some? && IsSwitch(s0.question.value) then ResolveSwitch(s0, s0.question.value, t)
    else if t.command.None? then (s0, Unhandled)
    else
      var cmd := t.command.value;
      var s1 := DropStaleWrite(s0, t.now);
      if (s1.question.None? && s1.write.None?) || !Conflicts(cmd, s1.question, s1.write) || !t.isExplicit
      then (s1, Unhandled)
      else
        var partial := Switch(cmd.tool, cmd.args, SnapshotOf(s1.question, s1.write));
        (SaveQuestionRow(s1, cmd.tool, SwitchConfirm, partial, [], t.now), Reminder)
  }

  // ---------------------------------------------------------------------------------------
  // The confirmation resolver.

  function RoleOverride(t: Turn): Option<string> {
    if IsConfirm(t.prompt) || IsCancel(t.prompt) then None else t.roleWord
  }

  predicate TakesRoleOverride(w: Write, t: Turn) {
    && w.body.action == "assign_staff"
    && RoleOverride(t).Some?
    && Lookup(w.body.payload, "staff_id") != JNull
    && Lookup(w.body.payload, "course_id") != JNull
  }

  function OverrideCall(w: Write, role: string): ToolCall {
    ToolCall("assign_staff_to_course",
             map["course_id" := Lookup(w.body.payload, "course_id"),
                 "user_id" := Lookup(w.body.payload, "staff_id"),
                 "weekdays" := Lookup(w.body.preview, "weekdays"),
                 "role_seniority" := JText(role)])
  }

  function OverrideRole(s: State, w: Write, t: Turn): (State, Outcome)
    requires TakesRoleOverride(w, t)
  {
    var ran := RunTool(s.(write := None), OverrideCall(w, RoleOverride(t).value), t.roleRun, t.now);
    if t.roleRun.reply.None? then (ran, Raised)
    else if t.roleRun.reply.value == PendingConfirmation then
      var active := DropStaleWrite(ran, t.now);
      (if active.write.Some? && w.telegram.Some?
       then active.(write := Some(active.write.value.(telegram := w.telegram))) else active,
       Executed(t.roleRun.reply.value))
    else (ran, Executed(t.roleRun.reply.value))
  }

  /** After a success the remembered message is edited, before the rows are cleared. */
  predicate EditRaises(w: Write, t: Turn) {
    t.execution == Some(Succeeded) && w.telegram.Some? && t.editRaises
  }

  /** Execution, edit and clearing; each step that raises leaves the rest undone. */
  function ConfirmWrite(s: State, w: Write, t: Turn): (State, Outcome) {
    var done := Execute(s, w, t.now);
    if t.execution.None? then (s, Raised)
    else if EditRaises(w, t) then (done, Raised)
    else (ClearAll(done), Executed(t.execution.value))
  }

  function ConfirmTurn(telegram: bool, s: State, t: Turn): (State, Outcome) {
    var s0 := DropStaleWrite(s, t.now);
    if s0.write.None? then (s0, Unhandled)
    else if IsCancel(t.prompt) then (ClearAll(s0), Cancelled)
    else if TakesRoleOverride(s0.write.value, t) then OverrideRole(s0, s0.write.value, t)
    else if !telegram then (s0, Reminder)
    else if IsConfirm(t.prompt) then ConfirmWrite(s0, s0.write.value, t)
    else (s0, Reminder)
  }

  // ---------------------------------------------------------------------------------------
  // The disambiguation resolver.

  predicate Answerable(field: Field) { field in {Subject, PointType, CoursePick, CourseRole} }

  function FillPick(args: Args, field: Field, picked: int): Args
    requires Answerable(field)
  {
    match field
    case Subject => args["user_id" := JInt(picked)] - {"query", "student_query", "staff_query"}
    case PointType => args["point_type_id" := JInt(picked)] - {"point_type_query"}
    case CoursePick => args["course_id" := JInt(picked)] - {"course_query"}
    case CourseRole => args["course_role_id" := JInt(picked)] - {"course_role_query", "role_seniority"}
  }

  function PartialArgs(p: Partial): Args { if p.Plain? then p.args else map[] }

  function AnswerTurn(s: State, t: Turn): (State, Outcome) {
    var s0 := DropStaleQuestion(s, t.now);
    if s0.question.None? || IsSwitch(s0.question.value) then (s0, Unhandled)
    else if IsCancel(t.prompt) then (s0.(question := None), Cancelled)
    else if t.pick.None? || !Answerable(s0.question.value.field) then (s0, Reminder)
    else
      var row := s0.question.value;
      var call := ToolCall(row.tool, FillPick(PartialArgs(row.partial), row.field, t.pick.value));
      var ran := RunTool(s0, call, t.answerRun, t.now);
      match t.answerRun.reply
      case None => (ran, Raised)
      case Some(Ambiguous) => (ran, Reminder)
      case Some(reply) => (ran.(question := None), Executed(reply))
  }

  /** The resolver sequence of one request. An exception in one resolver ends the request. */
  function ResolveTurn(telegram: bool, s: State, t: Turn): (State, seq<Outcome>) {
    var (s1, o1) := SwitchTurn(s, t);
    if o1.Raised? then (s1, [o1])
    else
      var (s2, o2) := ConfirmTurn(telegram, s1, t);
      if o2.Raised? then (s2, [o1, o2])
      else
        var (s3, o3) := AnswerTurn(s2, t);
        (s3, [o1, o2, o3])
  }

  /** A resolver that executed or reminded makes the model answer without tools. */
  predicate FastPath(os: seq<Outcome>) {
    exists o :: o in os && (o.Executed? || o.Reminder?)
  }

  /** The confirm button under a Telegram message names a row by primary key. */
  function PressConfirm(s: State, pk: nat, now: int, execution: Option<Reply>): State {
    if s.write.None? || s.write.value.pk != pk then s
    else if s.write.value.expiresAt <= now then ClearAll(s)
    else if execution.None? then s
    else ClearAll(Execute(s, s.write.value, now))
  }

  function PressCancel(s: State, pk: nat): State {
    if s.write.None? || s.write.value.pk != pk then s else ClearAll(s)
  }

  /** After a Telegram reply was sent, an active write remembers its message; sending may yield
      no message id. */
  function AttachMessage(s: State, now: int, chat: int, message: Option<int>): State {
    var s0 := DropStaleWrite(s, now);
    if s0.write.None? then s0
    else
      var shown := if message.Some? then Some((chat, message.value)) else None;
      s0.(write := Some(s0.write.value.(telegram := shown)))
  }

  /** What can happen to a channel: a request, whose model may run tools that save rows unless the
      fast path was taken, a reply that was sent, or a press of a button. */
  datatype Op =
    | Request(turn: Turn, modelSaves: seq<Save>)
    | Attach(now: int, chat: int, message: Option<int>)
    | Confirm(pk: nat, now: int, execution: Option<Reply>)
    | Cancel(pk: nat)

  function Step(telegram: bool, s: State, op: Op): State {
    match op
    case Request(t, saves) =>
      var (s1, os) := ResolveTurn(telegram, s, t);
      if (exists o :: o in os && o.Raised?) || FastPath(os) then s1 else ApplySaves(s1, saves, t.now)
    case Attach(now, chat, message) => AttachMessage(s, now, chat, message)
    case Confirm(pk, now, execution) => PressConfirm(s, pk, now, execution)
    case Cancel(pk) => PressCancel(s, pk)
  }

  function Run(telegram: bool, s: State, ops: seq<Op>): State
    decreases |ops|
  {
    if ops == [] then s
    else Step(telegram, Run(telegram, s, ops[..|ops| - 1]), ops[|ops| - 1])
  }
}
