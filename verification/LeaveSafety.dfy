/** What every run of leave requests and roster lookups keeps. */
module LeaveSafety {
  import opened Wrappers
  import opened AttendanceTables
  import opened LeaveRequests

  // ---------------------------------------------------------------------------------------
  // Disjoint intervals

  ghost predicate Proper(leaves: seq<Leave>) {
    forall k :: 0 <= k < |leaves| ==> leaves[k].start <= leaves[k].end
  }

  /** Pending and approved requests of one student share no day. */
  ghost predicate Disjoint(leaves: seq<Leave>) {
    forall i, j ::
      0 <= i < j < |leaves| && leaves[i].student == leaves[j].student && Blocking(leaves[i]) && Blocking(leaves[j])
      ==> !Meets(leaves[i], leaves[j].start, leaves[j].end)
  }

  ghost predicate Tidy(leaves: seq<Leave>) { Proper(leaves) && Disjoint(leaves) }

  lemma AppendStaysTidy(leaves: seq<Leave>, leave: Leave)
    requires Tidy(leaves) && leave.start <= leave.end
    requires CheckOverlap(leaves, leave.student, leave.start, leave.end, None) == Ok
    ensures Tidy(leaves + [leave])
  {
    var after := leaves + [leave];
    forall i, j | 0 <= i < j < |after| && after[i].student == after[j].student
                  && Blocking(after[i]) && Blocking(after[j])
      ensures !Meets(after[i], after[j].start, after[j].end)
    {
      if j == |leaves| {
        assert !Clashes(leaves, i, leave.student, leave.start, leave.end, None);
      }
    }
  }

  /** An edited request is compared with every other one, on both sides of its place. */
  lemma EditStaysTidy(leaves: seq<Leave>, id: nat, leave: Leave)
    requires Tidy(leaves) && id < |leaves| && leave.start <= leave.end
    requires CheckOverlap(leaves, leave.student, leave.start, leave.end, Some(id)) == Ok
    ensures Tidy(leaves[id := leave])
  {
    var after := leaves[id := leave];
    forall i, j | 0 <= i < j < |after| && after[i].student == after[j].student
                  && Blocking(after[i]) && Blocking(after[j])
      ensures !Meets(after[i], after[j].start, after[j].end)
    {
      if j == id {
        assert !Clashes(leaves, i, leave.student, leave.start, leave.end, Some(id));
      } else if i == id {
        assert !Clashes(leaves, j, leave.student, leave.start, leave.end, Some(id));
      }
    }
  }

  /** A request that keeps its dates and does not start blocking clashes with nothing new. */
  lemma ReviewStaysTidy(leaves: seq<Leave>, id: nat, leave: Leave)
    requires Tidy(leaves) && id < |leaves|
    requires leave.student == leaves[id].student
    requires leave.start == leaves[id].start && leave.end == leaves[id].end
    requires Blocking(leave) ==> Blocking(leaves[id])
    ensures Tidy(leaves[id := leave])
  {
  }

  lemma StepStaysTidy(s: State, op: Op)
    requires Tidy(s.leaves)
    ensures Tidy(Step(s, op).leaves)
  {
    match op
    case CreateOp(now, student, start, end, reason) =>
      if CreateReply(s, now, student, start, end, reason) == Ok {
        var leave := Created(s, student, start, end, reason).leaves[|s.leaves|];
        AppendStaysTidy(s.leaves, leave);
      }
    case EditOp(now, actor, seesAll, id, patch) =>
      if EditReply(s, now, actor, seesAll, id, patch) == Ok {
        EditStaysTidy(s.leaves, id, Patched(s.leaves[id], patch));
      }
    case CancelOp(actor, seesAll, id) =>
      if OwnPending(s, actor, seesAll, id) == Ok {
        ReviewStaysTidy(s.leaves, id, s.leaves[id].(status := Cancelled));
      }
    case ApproveOp(now, id) =>
      if Approve(s, now, id).1 == Ok {
        ReviewStaysTidy(s.leaves, id, s.leaves[id].(status := Approved, reviewedAt := Some(now)));
      }
    case DenyOp(now, id, reason) =>
      if Deny(s, now, id, reason).1 == Ok {
        ReviewStaysTidy(s.leaves, id, Deny(s, now, id, reason).0.leaves[id]);
      }
    case _ =>
  }

  lemma {:induction false} RunStaysTidy(s: State, ops: seq<Op>)
    requires Tidy(s.leaves)
    ensures Tidy(Run(s, ops).leaves)
    decreases |ops|
  {
    if ops != [] {
      StepStaysTidy(s, ops[0]);
      RunStaysTidy(Step(s, ops[0]), ops[1..]);
    }
  }

  /** A run takes its operations one after the other. */
  lemma {:induction false} RunsStepByStep(s: State, ops: seq<Op>, op: Op)
    ensures Run(s, []) == s
    ensures Run(s, ops + [op]) == Step(Run(s, ops), op)
    decreases |ops|
  {
    var all := ops + [op];
    if ops == [] {
      assert all[1..] == [];
    } else {
      assert all[1..] == ops[1..] + [op];
      RunsStepByStep(Step(s, ops[0]), ops[1..], op);
    }
  }

  /** Requests are never deleted, and one that was reviewed or cancelled never changes again. */
  lemma StepKeepsReviewed(s: State, op: Op, k: nat)
    requires k < |s.leaves| && s.leaves[k].status != Pending
    ensures k < |Step(s, op).leaves| && Step(s, op).leaves[k] == s.leaves[k]
  {
  }

  lemma {:induction false} ReviewedIsFinal(s: State, ops: seq<Op>, k: nat)
    requires k < |s.leaves| && s.leaves[k].status != Pending
    ensures k < |Run(s, ops).leaves| && Run(s, ops).leaves[k] == s.leaves[k]
    decreases |ops|
  {
    if ops != [] {
      StepKeepsReviewed(s, ops[0], k);
      ReviewedIsFinal(Step(s, ops[0]), ops[1..], k);
    }
  }

  ghost predicate Covered(leaves: seq<Leave>, student: int, day: int) {
    exists k :: 0 <= k < |leaves| && Covers(leaves[k], student, day)
  }

  lemma TidyCoversOnce(leaves: seq<Leave>, student: int, day: int, i: nat, j: nat)
    requires Tidy(leaves) && i < |leaves| && j < |leaves|
    requires Covers(leaves[i], student, day) && Covers(leaves[j], student, day)
    ensures i == j
  {
  }

  /** In every run at most one approved leave of a student covers any day, so the order in which
      the lookup ranks approved leaves never decides anything. */
  lemma OneLeaveCoversADay(offset: int, otherRoles: set<int>, ops: seq<Op>, student: int, day: int, k: nat)
    ensures var leaves := Run(Empty(offset, otherRoles), ops).leaves;
            && Tidy(leaves)
            && (k < |leaves| && Covers(leaves[k], student, day) ==>
                CoveringLeave(leaves, |leaves|, student, day) == Some(k))
  {
    var leaves := Run(Empty(offset, otherRoles), ops).leaves;
    RunStaysTidy(Empty(offset, otherRoles), ops);
    if k < |leaves| && Covers(leaves[k], student, day) {
      var found := CoveringLeave(leaves, |leaves|, student, day);
      TidyCoversOnce(leaves, student, day, k, found.value);
    }
  }

  // ---------------------------------------------------------------------------------------
  // What a covered row shows

  predicate DayCovered(s: State, student: int, event: int) { LeaveFor(s, student, event).Some? }

  /** Rows belong to enrolled students of existing events, and a row not set by hand since its
      leave was applied shows the leave if a leave covers it, and nothing otherwise. */
  ghost predicate Settled(s: State) {
    && s.byHand <= s.rows.Keys
    && forall key :: key in s.rows ==> SettledRow(s, key)
  }

  ghost predicate SettledRow(s: State, key: (int, int))
    requires key in s.rows
  {
    && key.1 in s.events
    && (key.0, s.events[key.1].course) in s.enrolled
    && (key !in s.byHand ==>
          s.rows[key].status == if DayCovered(s, key.0, key.1) then AbsentWithLeave else Unregistered)
  }

  lemma CoveredIff(s: State, student: int, event: int)
    requires event in s.events
    ensures DayCovered(s, student, event) <==> Covered(s.leaves, student, LocalDay(s.events[event].at, s.offset))
  {
  }

  /** Only approved requests matter to coverage. */
  ghost predicate SameApproved(before: seq<Leave>, after: seq<Leave>) {
    && |before| <= |after|
    && (forall k :: 0 <= k < |before| ==>
          before[k] == after[k] || (before[k].status != Approved && after[k].status != Approved))
    && (forall k :: |before| <= k < |after| ==> after[k].status != Approved)
  }

  lemma LeavesOnlyStaysSettled(s: State, after: seq<Leave>)
    requires Settled(s) && SameApproved(s.leaves, after)
    ensures Settled(s.(leaves := after))
  {
  }

  lemma ApprovalExtendsCoverage(leaves: seq<Leave>, id: nat, now: int, student: int, day: int)
    requires id < |leaves| && leaves[id].status == Pending
    ensures var approved := leaves[id].(status := Approved, reviewedAt := Some(now));
            Covered(leaves[id := approved], student, day) <==>
              || Covered(leaves, student, day)
              || (leaves[id].student == student && leaves[id].start <= day <= leaves[id].end)
  {
    var approved := leaves[id].(status := Approved, reviewedAt := Some(now));
    var after := leaves[id := approved];
    if k :| 0 <= k < |leaves| && Covers(leaves[k], student, day) {
      assert Covers(after[k], student, day);
    }
    if leaves[id].student == student && leaves[id].start <= day <= leaves[id].end {
      assert Covers(after[id], student, day);
    }
    if k :| 0 <= k < |after| && Covers(after[k], student, day) {
      assert k != id ==> Covers(leaves[k], student, day);
    }
  }

  lemma ApproveStaysSettled(s: State, now: int, id: nat)
    requires Settled(s)
    ensures Settled(Approve(s, now, id).0)
  {
    if Approve(s, now, id).1 == Ok {
      var t, leave := Approve(s, now, id).0, s.leaves[id];
      var events := EventsBetween(s, leave.student, leave.start, leave.end);
      forall key | key in t.rows ensures SettledRow(t, key) {
        if key in s.rows {
          assert SettledRow(s, key);
        } else {
          assert key in Keys(leave.student, events);
        }
        ApprovalExtendsCoverage(s.leaves, id, now, key.0, LocalDay(s.events[key.1].at, s.offset));
        CoveredIff(s, key.0, key.1);
        CoveredIff(t, key.0, key.1);
      }
    }
  }

  lemma RosterStaysSettled(s: State, event: int)
    requires Settled(s)
    ensures Settled(BuildRoster(s, event, true).0)
  {
  }

  lemma ScheduleStaysSettled(s: State, id: int, event: Event)
    requires Settled(s)
    ensures Settled(Schedule(s, id, event))
  {
  }

  lemma RowOpStaysSettled(s: State, op: Op)
    requires Settled(s) && (op.MarkOp? || op.DeleteOp? || op.EnrolOp?)
    ensures Settled(Step(s, op))
  {
  }

  lemma StepStaysSettled(s: State, op: Op)
    requires Settled(s)
    ensures Settled(Step(s, op))
  {
    match op
    case CreateOp(_, _, _, _, _) => LeavesOnlyStaysSettled(s, Step(s, op).leaves);
    case EditOp(_, _, _, _, _) => LeavesOnlyStaysSettled(s, Step(s, op).leaves);
    case CancelOp(_, _, _) => LeavesOnlyStaysSettled(s, Step(s, op).leaves);
    case DenyOp(_, _, _) => LeavesOnlyStaysSettled(s, Step(s, op).leaves);
    case ApproveOp(now, id) => ApproveStaysSettled(s, now, id);
    case RosterOp(event) => RosterStaysSettled(s, event);
    case ScheduleOp(id, event) => ScheduleStaysSettled(s, id, event);
    case _ => RowOpStaysSettled(s, op);
  }

  lemma {:induction false} RunStaysSettled(s: State, ops: seq<Op>)
    requires Settled(s)
    ensures Settled(Run(s, ops))
    decreases |ops|
  {
    if ops != [] {
      StepStaysSettled(s, ops[0]);
      RunStaysSettled(Step(s, ops[0]), ops[1..]);
    }
  }

  /** In every run, and whichever of approval, enrolment, scheduling and the roster came first,
      a row nobody has marked since is absent with leave exactly when an approved leave of the
      student covers its day, and unregistered otherwise. */
  lemma EveryUntouchedRowShowsItsLeave(offset: int, otherRoles: set<int>, ops: seq<Op>, key: (int, int))
    ensures var s := Run(Empty(offset, otherRoles), ops);
            key in s.rows && key !in s.byHand ==>
              && key.1 in s.events
              && (s.rows[key].status == AbsentWithLeave <==>
                  Covered(s.leaves, key.0, LocalDay(s.events[key.1].at, s.offset)))
              && (s.rows[key].status != AbsentWithLeave ==> s.rows[key].status == Unregistered)
  {
    var s := Run(Empty(offset, otherRoles), ops);
    RunStaysSettled(Empty(offset, otherRoles), ops);
    if key in s.rows && key !in s.byHand {
      assert SettledRow(s, key);
      CoveredIff(s, key.0, key.1);
    }
  }

  /** Present and late survive everything but the staff's own next mark; the note too. */
  lemma ProtectedSurvivesStep(s: State, op: Op, key: (int, int))
    requires key in s.rows && Protected(s.rows[key])
    requires op.MarkOp? ==> (op.student, op.event) != key
    ensures var t := Step(s, op);
            key in t.rows && t.rows[key].status == s.rows[key].status && t.rows[key].note == s.rows[key].note
  {
  }

  ghost predicate NeverMarks(ops: seq<Op>, key: (int, int)) {
    forall k :: 0 <= k < |ops| && ops[k].MarkOp? ==> (ops[k].student, ops[k].event) != key
  }

  lemma {:induction false} ProtectedSurvives(s: State, ops: seq<Op>, key: (int, int))
    requires key in s.rows && Protected(s.rows[key]) && NeverMarks(ops, key)
    ensures var t := Run(s, ops);
            key in t.rows && t.rows[key].status == s.rows[key].status && t.rows[key].note == s.rows[key].note
    decreases |ops|
  {
    if ops != [] {
      ProtectedSurvivesStep(s, ops[0], key);
      assert forall k :: 0 <= k < |ops[1..]| ==> ops[1..][k] == ops[k + 1];
      ProtectedSurvives(Step(s, ops[0]), ops[1..], key);
    }
  }

  // ---------------------------------------------------------------------------------------
  // Eager and lazy application agree

  lemma ContainsItself(text: string)
    ensures Contains(text, text)
  {
    assert OccursAt(text, text, 0);
  }

  lemma ContainsTail(prefix: string, part: string)
    ensures Contains(prefix + "\n" + part, part)
  {
    assert OccursAt(prefix + "\n" + part, part, |prefix| + 1);
  }

  /** Applying the same leave again changes neither the status nor the note. */
  lemma ApplyingAgainChangesNothing(row: Row, id: nat)
    ensures Excused(Excused(row, id), id) == Excused(row, id)
  {
    if row.note == "" {
      ContainsItself(LeaveNote(id));
    } else if !Contains(row.note, LeaveNote(id)) {
      ContainsTail(row.note, LeaveNote(id));
    }
  }

  /** The wider window of instants never hides an event of the day. */
  lemma WindowLosesNothing(s: State, courses: set<int>, day: int)
    ensures EventsOnDay(s, courses, day)
         == set e | e in s.events && s.events[e].course in courses && LocalDay(s.events[e].at, s.offset) == day
  {
  }

  /** Approval after the roster was built leaves the same row as the roster built after
      approval, for every student and event: same status and same note. */
  lemma RosterAndApprovalCommute(s: State, now: int, id: nat, event: int)
    requires Tidy(s.leaves) && event in s.events
    requires Approve(s, now, id).1 == Ok
    ensures Approve(BuildRoster(s, event, true).0, now, id).1 == Ok
    ensures var eager := BuildRoster(Approve(s, now, id).0, event, true).0;
            var later := Approve(BuildRoster(s, event, true).0, now, id).0;
            && eager.rows.Keys == later.rows.Keys
            && forall key :: key in eager.rows ==> eager.rows[key] == later.rows[key]
  {
    var leave := s.leaves[id];
    var approved, listed := Approve(s, now, id).0, BuildRoster(s, event, true).0;
    var events := EventsBetween(s, leave.student, leave.start, leave.end);
    assert events == EventsBetween(listed, leave.student, leave.start, leave.end);
    var eager := BuildRoster(approved, event, true).0;
    assert Approve(listed, now, id).1 == Ok;
    var later := Approve(listed, now, id).0;
    ApprovedTidy(s, now, id);
    MissingAgree(s, now, id, event);
    forall key | key in eager.rows ensures key in later.rows && eager.rows[key] == later.rows[key] {
      CommuteAt(s, now, id, event, key);
    }
    forall key | key in later.rows ensures key in eager.rows {
      CommuteAt(s, now, id, event, key);
    }
  }

  lemma ApprovedTidy(s: State, now: int, id: nat)
    requires Tidy(s.leaves) && Approve(s, now, id).1 == Ok
    ensures Tidy(Approve(s, now, id).0.leaves)
  {
  }

  /** Building the roster first creates the rows that approval would create, and no others. */
  lemma MissingAgree(s: State, now: int, id: nat, event: int)
    requires event in s.events && Approve(s, now, id).1 == Ok
    ensures var t := Approve(s, now, id).0;
            forall key :: key in MissingKeys(t, event) ==> key in MissingKeys(s, event)
    ensures var t := Approve(s, now, id).0;
            var events := EventsBetween(s, s.leaves[id].student, s.leaves[id].start, s.leaves[id].end);
            forall key :: key in MissingKeys(s, event) && key !in MissingKeys(t, event) ==>
              key in Keys(s.leaves[id].student, events) && key !in s.rows
  {
  }

  /** How a leave about to be approved ranks: it covers its own days alone, and no others. */
  lemma LeaveAfterApproval(s: State, now: int, id: nat, student: int, event: int)
    requires Tidy(s.leaves) && event in s.events && Approve(s, now, id).1 == Ok
    ensures var t := Approve(s, now, id).0;
            var day := LocalDay(s.events[event].at, s.offset);
            var covers := s.leaves[id].student == student && s.leaves[id].start <= day <= s.leaves[id].end;
            && (covers ==> LeaveFor(t, student, event) == Some(id) && LeaveFor(s, student, event) == None)
            && (!covers ==> LeaveFor(t, student, event) == LeaveFor(s, student, event))
  {
    var t := Approve(s, now, id).0;
    var day := LocalDay(s.events[event].at, s.offset);
    ApprovedTidy(s, now, id);
    ApprovalExtendsCoverage(s.leaves, id, now, student, day);
    CoveredIff(s, student, event);
    CoveredIff(t, student, event);
    var before, after := LeaveFor(s, student, event), LeaveFor(t, student, event);
    if Covers(t.leaves[id], student, day) {
      TidyCoversOnce(t.leaves, student, day, id, after.value);
      if before.Some? {
        assert Covers(t.leaves[before.value], student, day);
        TidyCoversOnce(t.leaves, student, day, id, before.value);
      }
    } else if before.Some? {
      assert Covers(t.leaves[before.value], student, day);
      TidyCoversOnce(t.leaves, student, day, before.value, after.value);
    }
  }

  /** A key after approval and then the roster, in terms of the state before both. */
  lemma RosterAfterApproval(s: State, now: int, id: nat, event: int, key: (int, int))
    requires event in s.events && Approve(s, now, id).1 == Ok
    ensures var t := Approve(s, now, id).0;
            var eager := BuildRoster(t, event, true).0.rows;
            && (key in eager <==> key in t.rows || key in MissingKeys(t, event))
            && (key in eager ==>
                  eager[key] == if key in MissingKeys(t, event) then Listed(t, key.0, event, true) else t.rows[key])
  {
  }

  /** A key after the roster and then approval. */
  lemma ApprovalAfterRoster(s: State, now: int, id: nat, event: int, key: (int, int))
    requires event in s.events && Approve(s, now, id).1 == Ok && Approve(BuildRoster(s, event, true).0, now, id).1 == Ok
    ensures var listed := BuildRoster(s, event, true).0;
            var leave := s.leaves[id];
            var approved := Keys(leave.student, EventsBetween(s, leave.student, leave.start, leave.end));
            var later := Approve(listed, now, id).0.rows;
            && (key in later <==> key in listed.rows || key in approved)
            && (key in later ==>
                  later[key] == if key in approved then Excused(RowAt(listed.rows, key), id) else listed.rows[key])
  {
  }

  lemma CommuteAt(s: State, now: int, id: nat, event: int, key: (int, int))
    requires Tidy(s.leaves) && event in s.events && Approve(s, now, id).1 == Ok
    requires Approve(BuildRoster(s, event, true).0, now, id).1 == Ok
    ensures var eager := BuildRoster(Approve(s, now, id).0, event, true).0.rows;
            var later := Approve(BuildRoster(s, event, true).0, now, id).0.rows;
            && (key in eager <==> key in later)
            && (key in eager ==> eager[key] == later[key])
  {
    RosterAfterApproval(s, now, id, event, key);
    ApprovalAfterRoster(s, now, id, event, key);
    MissingAgree(s, now, id, event);
    LeaveAfterApproval(s, now, id, key.0, event);
    ApplyingAgainChangesNothing(RowAt(s.rows, key), id);
  }

  // ---------------------------------------------------------------------------------------
  // Where the roster, approval and notes fall short

  /** Building the roster again keeps what staff marked, except for a student with another role:
      the roster's query does not see that row, so a covered one is excused once more. */
  lemma RosterKeepsTheMarkIff(s: State, student: int, event: int)
    requires event in s.events && (student, s.events[event].course) in s.enrolled
    requires (student, event) in s.rows && !s.rows[(student, event)].deleted
    ensures var before := s.rows[(student, event)].status;
            var after := BuildRoster(s, event, true).0.rows;
            && (student, event) in after
            && (after[(student, event)].status == before <==>
                student !in s.otherRoles
                || !Covered(s.leaves, student, LocalDay(s.events[event].at, s.offset))
                || Attended(before) || before == AbsentWithLeave)
  {
  }

  /** Approving a pending request fails, and changes nothing, if and only if the student has a
      soft-deleted row for an event of an enrolled course on a day of the leave. */
  lemma ApprovalRaisesIff(s: State, now: int, id: nat)
    requires id < |s.leaves| && s.leaves[id].status == Pending
    ensures var leave := s.leaves[id];
            Approve(s, now, id).1 == Raised <==>
              exists e :: e in s.events
                && (leave.student, s.events[e].course) in s.enrolled
                && leave.start <= LocalDay(s.events[e].at, s.offset) <= leave.end
                && (leave.student, e) in s.rows && s.rows[(leave.student, e)].deleted
    ensures Approve(s, now, id).1 != Ok ==> Approve(s, now, id).0 == s
  {
  }

  /** The text has a line that is exactly the given one. */
  ghost predicate HasLine(text: string, line: string) {
    exists i :: 0 <= i <= |text| && LineAt(text, line, i)
  }

  ghost predicate LineAt(text: string, line: string, i: nat) {
    && OccursAt(text, line, i)
    && (i == 0 || text[i - 1] == '\n')
    && (i + |line| == |text| || text[i + |line|] == '\n')
  }

  /** An excused row's note names its leave on a line of its own, unless the old note already
      contained the text inside another line. */
  lemma NoteNamesTheLeaveIff(existing: string, id: nat)
    ensures HasLine(ResolveNote(existing, id), LeaveNote(id)) <==>
              !Contains(existing, LeaveNote(id)) || HasLine(existing, LeaveNote(id))
  {
    var note, line := ResolveNote(existing, id), LeaveNote(id);
    if existing == "" {
      assert LineAt(note, line, 0);
    } else if !Contains(existing, line) {
      assert LineAt(note, line, |existing| + 1);
    }
  }

  /** Leave 12 hides leave 1: the note of an event excused by both names only one of them. */
  lemma LongerIdHidesShorterOne()
    ensures ResolveNote(LeaveNote(12), 1) == LeaveNote(12)
    ensures !HasLine(ResolveNote(LeaveNote(12), 1), LeaveNote(1))
  {
    assert Digits(1) == "1";
    assert Digits(12) == "12";
    assert OccursAt(LeaveNote(12), LeaveNote(1), 0);
    forall i: nat | i <= |LeaveNote(12)| ensures !LineAt(LeaveNote(12), LeaveNote(1), i) {
      if i == 0 {
        assert LeaveNote(12)[|LeaveNote(1)|] == '2';
      }
    }
  }
}
