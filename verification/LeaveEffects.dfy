/**
 What each leave operation answers and writes, told from the request, the tables before it and the
 local day alone.
 */
module LeaveEffects {
  import opened Wrappers
  import opened AttendanceTables
  import opened LeaveRequests
  import opened LeaveSafety

  // ---------------------------------------------------------------------------------------
  // Days and overlaps

  /** The day number on the tenant's calendar. */
  function Today(now: int, offset: int): int { (now + offset) / 86400 }

  /** The k-th request is the student's, pending or approved, and has a day in common with the dates. */
  ghost predicate InTheWay(s: State, k: int, student: int, start: int, end: int) {
    && 0 <= k < |s.leaves| && s.leaves[k].student == student
    && (s.leaves[k].status == Pending || s.leaves[k].status == Approved)
    && exists day: int :: OfLeave(s.leaves[k], day) && start <= day <= end
  }

  predicate OfLeave(leave: Leave, day: int) { leave.start <= day <= leave.end }

  /** The newest of them, leaving out `but`. */
  ghost predicate NewestInTheWay(s: State, k: int, student: int, start: int, end: int, but: int) {
    && k != but && InTheWay(s, k, student, start, end)
    && forall j | k < j < |s.leaves| && j != but :: !InTheWay(s, j, student, start, end)
  }

  lemma ClashesIff(s: State, k: nat, student: int, start: int, end: int, exclude: Option<nat>)
    requires Proper(s.leaves) && start <= end && k < |s.leaves|
    ensures Clashes(s.leaves, k, student, start, end, exclude) <==>
            InTheWay(s, k, student, start, end) && exclude != Some(k)
  {
    var first := if s.leaves[k].start < start then start else s.leaves[k].start;
    assert Meets(s.leaves[k], start, end) ==> OfLeave(s.leaves[k], first) && start <= first <= end;
  }

  /** What is answered about dates and overlaps: a leave may start today, and may be one day long. */
  ghost predicate DatesAnswer(s: State, student: int, start: int, end: int, today: int, but: int, reply: Reply) {
    if start < today then reply == StartInPast
    else if end < start then reply == EndBeforeStart
    else if exists k :: NewestInTheWay(s, k, student, start, end, but) then
      && reply.Overlap? && NewestInTheWay(s, reply.existing, student, start, end, but)
      && reply.existingStatus == s.leaves[reply.existing].status
    else reply == Ok
  }

  lemma DatesAreAnswered(s: State, student: int, start: int, end: int, today: int, exclude: Option<nat>)
    requires Proper(s.leaves)
    ensures var dates := CheckDates(start, end, today);
            var reply := if dates != Ok then dates else CheckOverlap(s.leaves, student, start, end, exclude);
            DatesAnswer(s, student, start, end, today, if exclude.Some? then exclude.value else -1, reply)
  {
    if today <= start <= end {
      forall k: nat | k < |s.leaves|
        ensures Clashes(s.leaves, k, student, start, end, exclude) <==>
                InTheWay(s, k, student, start, end) && exclude != Some(k)
      {
        ClashesIff(s, k, student, start, end, exclude);
      }
    }
  }

  // ---------------------------------------------------------------------------------------
  // Requests

  /** A leave without an end is one day long. It is stored as pending, after all others. */
  lemma SubmitWrites(s: State, now: int, student: int, start: int, end: Option<int>, reason: string)
    requires Proper(s.leaves)
    ensures var (s', reply) := Create(s, now, student, start, end, reason);
            var last := if end.None? then start else end.value;
            && (if reason == "" then reply == MissingReason
                else DatesAnswer(s, student, start, last, Today(now, s.offset), -1, reply))
            && s' == if reply == Ok
                     then s.(leaves := s.leaves + [Leave(student, start, last, reason, Pending, None, None)]) else s
  {
    DatesAreAnswered(s, student, start, if end.None? then start else end.value, Today(now, s.offset), None);
  }

  /** What the student may do with request `id`. */
  predicate MayChange(s: State, actor: int, seesAll: bool, id: nat, reply: Reply) {
    if id >= |s.leaves| then reply == NotFound
    else if s.leaves[id].student != actor then reply == (if seesAll then Forbidden else NotFound)
    else if s.leaves[id].status != Pending then reply == NotPending
    else reply == Ok
  }

  /** Editing changes the dates and the reason that were sent and nothing else; an end sent as null
      makes the leave one day long. */
  lemma EditWrites(s: State, now: int, actor: int, seesAll: bool, id: nat, patch: Patch)
    requires Proper(s.leaves)
    ensures var (s', reply) := Edit(s, now, actor, seesAll, id, patch);
            && (reply != Ok ==> s' == s)
            && (!MayChange(s, actor, seesAll, id, Ok) ==> MayChange(s, actor, seesAll, id, reply))
            && (MayChange(s, actor, seesAll, id, Ok) ==>
                  var leave := s.leaves[id];
                  var start := if patch.start.None? then leave.start else patch.start.value;
                  var end := if patch.end.None? then leave.end
                             else if patch.end.value.None? then start else patch.end.value.value;
                  && (if patch.reason == Some("") then reply == MissingReason
                      else DatesAnswer(s, actor, start, end, Today(now, s.offset), id, reply))
                  && (reply == Ok ==>
                        var reason := if patch.reason.None? then leave.reason else patch.reason.value;
                        s' == s.(leaves := s.leaves[id := Leave(actor, start, end, reason, Pending, leave.denialReason,
                                                                leave.reviewedAt)])))
  {
    if MayChange(s, actor, seesAll, id, Ok) {
      var after := Patched(s.leaves[id], patch);
      DatesAreAnswered(s, actor, after.start, after.end, Today(now, s.offset), Some(id));
    }
  }

  /** Cancelling marks one's own pending request as cancelled. */
  lemma CancelWrites(s: State, actor: int, seesAll: bool, id: nat)
    ensures var (s', reply) := Cancel(s, actor, seesAll, id);
            && MayChange(s, actor, seesAll, id, reply)
            && (reply != Ok ==> s' == s)
            && (reply == Ok ==> s' == s.(leaves := s.leaves[id := s.leaves[id].(status := Cancelled)]))
  {
  }

  /** Denying needs a reason and a pending request, and records reason and time. */
  lemma DenyWrites(s: State, now: int, id: nat, reason: string)
    ensures var (s', reply) := Deny(s, now, id, reason);
            && (reply == NotFound <==> id >= |s.leaves|)
            && (reply == MissingReason <==> id < |s.leaves| && reason == "")
            && (reply == NotPending <==> id < |s.leaves| && reason != "" && s.leaves[id].status != Pending)
            && (reply == Ok <==> id < |s.leaves| && reason != "" && s.leaves[id].status == Pending)
            && (reply != Ok ==> s' == s)
            && (reply == Ok ==>
                  var leave := s.leaves[id];
                  s' == s.(leaves := s.leaves[id := Leave(leave.student, leave.start, leave.end, leave.reason, Denied,
                                                          Some(reason), Some(now))]))
  {
  }

  // ---------------------------------------------------------------------------------------
  // The note

  function DigitValue(c: char): int { c as int - '0' as int }

  function Decimal(digits: string): int {
    if digits == "" then 0 else 10 * Decimal(digits[..|digits| - 1]) + DigitValue(digits[|digits| - 1])
  }

  /** An id is written in decimal digits without leading zeros. */
  lemma {:induction false} DigitsReadBack(n: nat)
    ensures Decimal(Digits(n)) == n && Digits(n) != ""
    ensures forall c <- Digits(n) :: '0' <= c <= '9'
    ensures n > 0 ==> Digits(n)[0] != '0'
  {
    if n >= 10 {
      DigitsReadBack(n / 10);
      var last := "0123456789"[n % 10];
      assert DigitValue(last) == n % 10;
      assert Digits(n)[..|Digits(n)| - 1] == Digits(n / 10);
    } else {
      assert DigitValue("0123456789"[n]) == n;
      assert Digits(n)[..0] == "";
    }
  }

  /** The note names the leave: by itself, after the old note on a line of its own, or because the
      old note has that text somewhere. */
  ghost predicate NoteNames(before: string, after: string, id: nat) {
    var text := "Approved leave #" + Digits(id);
    if before == "" then after == text
    else if exists i, j | 0 <= i <= j <= |before| :: before[i..j] == text then after == before
    else after == before + "\n" + text
  }

  /** Present and late rows stay; any other is absent with leave and names it in its note. */
  ghost predicate ExcusedBy(before: Row, after: Row, id: nat) {
    if before.status == Present || before.status == Late then after == before
    else after.status == AbsentWithLeave && after.deleted == before.deleted && NoteNames(before.note, after.note, id)
  }

  lemma ExcusingIs(row: Row, id: nat)
    ensures ExcusedBy(row, Excused(row, id), id)
  {
    var text := "Approved leave #" + Digits(id);
    assert text == LeaveNote(id);
    if i, j :| 0 <= i <= j <= |row.note| && row.note[i..j] == text {
      assert OccursAt(row.note, text, i);
    }
    if i :| 0 <= i <= |row.note| && OccursAt(row.note, text, i) {
      assert row.note[i..i + |text|] == text;
    }
  }

  // ---------------------------------------------------------------------------------------
  // Approval

  /** The key is of the student, for an event of one of the student's courses on a day of the leave. */
  predicate OnLeave(s: State, leave: Leave, key: (int, int)) {
    && key.0 == leave.student && key.1 in s.events && (leave.student, s.events[key.1].course) in s.enrolled
    && leave.start <= Today(s.events[key.1].at, s.offset) <= leave.end
  }

  lemma OnLeaveIff(s: State, leave: Leave, key: (int, int))
    ensures OnLeave(s, leave, key) <==>
            key in Keys(leave.student, EventsBetween(s, leave.student, leave.start, leave.end))
  {
    var events := EventsBetween(s, leave.student, leave.start, leave.end);
    if key in Keys(leave.student, events) {
      var e :| e in events && key == (leave.student, e);
      assert key.1 == e;
    }
    if OnLeave(s, leave, key) {
      var e := key.1;
      assert Today(s.events[e].at, s.offset) == LocalDay(s.events[e].at, s.offset);
      assert e in s.events && (leave.student, s.events[e].course) in s.enrolled;
      assert leave.start <= LocalDay(s.events[e].at, s.offset) <= leave.end;
      assert e in EventsBetween(s, leave.student, leave.start, leave.end);
      assert key == (leave.student, e);
    }
  }

  function Before(s: State, key: (int, int)): Row {
    if key in s.rows then s.rows[key] else Row(Unregistered, "", false)
  }

  /** Approval stamps the request and excuses every row of an event on a day of the leave, making
      those that were missing; a soft-deleted one among them stops it, and then nothing changes. */
  lemma ApproveWrites(s: State, now: int, id: nat, key: (int, int))
    ensures var (s', reply) := Approve(s, now, id);
            && (reply == NotFound <==> id >= |s.leaves|)
            && (reply == NotPending <==> id < |s.leaves| && s.leaves[id].status != Pending)
            && (reply == Raised <==> id < |s.leaves| && s.leaves[id].status == Pending
                                     && exists k <- s.rows :: OnLeave(s, s.leaves[id], k) && s.rows[k].deleted)
            && (reply == Raised || reply == NotFound || reply == NotPending || reply == Ok)
            && (reply != Ok ==> s' == s)
            && (reply == Ok ==>
                  var leave := s.leaves[id];
                  && s' == s.(leaves := s'.leaves, rows := s'.rows, byHand := s'.byHand)
                  && s'.leaves == s.leaves[id := leave.(status := Approved, reviewedAt := Some(now))]
                  && (key in s'.rows <==> key in s.rows || OnLeave(s, leave, key))
                  && (OnLeave(s, leave, key) ==> ExcusedBy(Before(s, key), s'.rows[key], id))
                  && (key in s.rows && !OnLeave(s, leave, key) ==> s'.rows[key] == s.rows[key])
                  && (key in s'.byHand <==>
                        key in s.byHand && !(OnLeave(s, leave, key) && !Attended(Before(s, key).status))))
  {
    if id < |s.leaves| {
      var leave := s.leaves[id];
      var events := EventsBetween(s, leave.student, leave.start, leave.end);
      forall k: (int, int)
        ensures OnLeave(s, leave, k) <==> k in Keys(leave.student, events)
      {
        OnLeaveIff(s, leave, k);
      }
      if e :| e in events && (leave.student, e) in s.rows && s.rows[(leave.student, e)].deleted {
        assert OnLeave(s, leave, (leave.student, e));
      }
      ExcusingIs(Before(s, key), id);
    }
  }

  // ---------------------------------------------------------------------------------------
  // The roster

  /** The roster takes the student's row up: there is no live one, or its query does not see it. */
  predicate TakenUp(s: State, key: (int, int), event: int) {
    && key.1 == event && event in s.events && (key.0, s.events[event].course) in s.enrolled
    && (key !in s.rows || s.rows[key].deleted || key.0 in s.otherRoles)
  }

  ghost predicate CoversEvent(s: State, k: int, student: int, event: int) {
    && 0 <= k < |s.leaves| && event in s.events
    && s.leaves[k].student == student && s.leaves[k].status == Approved
    && s.leaves[k].start <= Today(s.events[event].at, s.offset) <= s.leaves[k].end
  }

  /** Building the roster makes the missing rows and excuses those that a leave covers; soft-deleted
      rows and the rows of others stay as they are. */
  lemma RosterWrites(s: State, event: int, key: (int, int), k: int)
    requires Tidy(s.leaves)
    ensures var (s', reply) := BuildRoster(s, event, true);
            && (reply == NotFound <==> event !in s.events) && (reply == NotFound || reply == Ok)
            && s' == s.(rows := s'.rows, byHand := s'.byHand)
            && (key in s'.rows <==> key in s.rows || TakenUp(s, key, event))
            && (key in s.rows && (!TakenUp(s, key, event) || s.rows[key].deleted) ==>
                  s'.rows[key] == s.rows[key] && (key in s'.byHand <==> key in s.byHand))
            && (TakenUp(s, key, event) && !Before(s, key).deleted ==>
                  && (CoversEvent(s, k, key.0, event) ==>
                        && ExcusedBy(Before(s, key), s'.rows[key], k)
                        && (key in s'.byHand <==> key in s.byHand && Attended(Before(s, key).status)))
                  && ((forall j :: !CoversEvent(s, j, key.0, event)) ==>
                        s'.rows[key] == Before(s, key) && (key in s'.byHand <==> key in s.byHand)))
  {
    if TakenUp(s, key, event) {
      var found := LeaveFor(s, key.0, event);
      if found.Some? {
        assert CoversEvent(s, found.value, key.0, event);
        ExcusingIs(Before(s, key), found.value);
        if CoversEvent(s, k, key.0, event) {
          TidyCoversOnce(s.leaves, key.0, Today(s.events[event].at, s.offset), k, found.value);
        }
      }
    }
  }

  // ---------------------------------------------------------------------------------------
  // Staff

  /** A staff mark replaces status and note of a live row; deleting and restoring change its flag
      only; enrolling and scheduling add one pair or one event. */
  lemma StaffWrites(s: State, op: Op)
    ensures var s' := Step(s, op);
            && (op.MarkOp? ==>
                  var key := (op.student, op.event);
                  s' == if key in s.rows && !s.rows[key].deleted
                        then s.(rows := s.rows[key := Row(op.status, op.note, false)], byHand := s.byHand + {key})
                        else s)
            && (op.DeleteOp? ==>
                  var key := (op.student, op.event);
                  s' == if key in s.rows
                        then s.(rows := s.rows[key := Row(s.rows[key].status, s.rows[key].note, op.deleted)]) else s)
            && (op.EnrolOp? ==> s' == s.(enrolled := s.enrolled + {(op.student, op.course)}))
            && (op.ScheduleOp? ==>
                  s' == if op.event in s.events then s else s.(events := s.events[op.event := op.what]))
  {
  }
}
