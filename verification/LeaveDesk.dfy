/** Leave requests and attendance rows as tables that the requests of the service update. */
module LeaveDesk {
  import opened Wrappers
  import opened AttendanceTables
  import opened LeaveRequests
  import LeaveSafety

  /** The events whose row a leave changes. */
  function Unprotected(rows: map<(int, int), Row>, student: int, events: set<int>): set<int> {
    set e | e in events && !Protected(RowAt(rows, (student, e)))
  }

  /** A leave was applied to `done` so far, without meeting a soft-deleted row. */
  ghost predicate Applied(rows0: map<(int, int), Row>, byHand0: set<(int, int)>, student: int, done: set<int>, id: nat,
                          rows: map<(int, int), Row>, byHand: set<(int, int)>, updated: nat) {
    && !HasDeleted(rows0, student, done)
    && rows == ApplyTo(rows0, student, done, id)
    && byHand == ApplyByHand(rows0, byHand0, student, done)
    && updated == |Unprotected(rows0, student, done)|
  }

  lemma RowsOneMore(rows0: map<(int, int), Row>, student: int, done: set<int>, id: nat, e: int)
    requires e !in done
    ensures var key := (student, e);
            var rows := ApplyTo(rows0, student, done, id);
            && RowAt(rows, key) == RowAt(rows0, key)
            && (key in rows <==> key in rows0)
            && rows[key := Excused(RowAt(rows0, key), id)] == ApplyTo(rows0, student, done + {e}, id)
  {
  }

  lemma ByHandOneMore(rows0: map<(int, int), Row>, byHand0: set<(int, int)>, student: int, done: set<int>, e: int)
    ensures var key := (student, e);
            var byHand := ApplyByHand(rows0, byHand0, student, done);
            ApplyByHand(rows0, byHand0, student, done + {e}) ==
            if Protected(RowAt(rows0, key)) then byHand else byHand - {key}
  {
  }

  lemma CountOneMore(rows0: map<(int, int), Row>, student: int, done: set<int>, e: int)
    requires e !in done
    ensures |Unprotected(rows0, student, done + {e})|
         == |Unprotected(rows0, student, done)| + if Protected(RowAt(rows0, (student, e))) then 0 else 1
  {
    var here: set<int> := if Protected(RowAt(rows0, (student, e))) then {} else {e};
    assert Unprotected(rows0, student, done + {e}) == Unprotected(rows0, student, done) + here;
  }

  lemma OneMore(rows0: map<(int, int), Row>, byHand0: set<(int, int)>, student: int, done: set<int>, id: nat,
                rows: map<(int, int), Row>, byHand: set<(int, int)>, updated: nat, e: int)
    requires Applied(rows0, byHand0, student, done, id, rows, byHand, updated)
    requires e !in done
    ensures var key := (student, e);
            && RowAt(rows, key) == RowAt(rows0, key)
            && (key in rows <==> key in rows0)
            && (!(key in rows0 && rows0[key].deleted) ==>
                Applied(rows0, byHand0, student, done + {e}, id, rows[key := Excused(RowAt(rows, key), id)],
                        if Protected(RowAt(rows, key)) then byHand else byHand - {key},
                        if Protected(RowAt(rows, key)) then updated else updated + 1))
  {
    RowsOneMore(rows0, student, done, id, e);
    ByHandOneMore(rows0, byHand0, student, done, e);
    CountOneMore(rows0, student, done, e);
  }

  lemma EventsOfDay(s: State, student: int, day: int)
    ensures EventsOnDay(s, CoursesOf(s, student), day) == EventsBetween(s, student, day, day)
  {
    LeaveSafety.WindowLosesNothing(s, CoursesOf(s, student), day);
    forall e | e in EventsBetween(s, student, day, day) ensures s.events[e].course in CoursesOf(s, student) {
      assert (student, s.events[e].course) in s.enrolled;
    }
  }

  lemma SameEvents(s: State, t: State, student: int, day: int)
    requires s.events == t.events && s.enrolled == t.enrolled && s.offset == t.offset
    ensures EventsOnDay(s, CoursesOf(s, student), day) == EventsOnDay(t, CoursesOf(s, student), day)
  {
  }

  /** How far the roster has looked through the missing students. */
  ghost predicate RosterAt(s: State, event: int, applyLeave: bool, left: set<int>,
                           rows: map<(int, int), Row>, byHand: set<(int, int)>)
    requires event in s.events
  {
    var keys := MissingKeys(s, event);
    && rows.Keys == s.rows.Keys + keys
    && (forall key :: key in rows ==>
          rows[key] == if key in keys && key.0 !in left then Listed(s, key.0, event, applyLeave)
                       else RowAt(s.rows, key))
    && (forall key :: key in byHand <==>
          key in s.byHand && !(key in keys && key.0 !in left && ListedByLeave(s, key.0, event, applyLeave)))
  }

  lemma ListedOneMore(s: State, event: int, left: set<int>, rows: map<(int, int), Row>, byHand: set<(int, int)>, u: int)
    requires event in s.events && u in left && left <= MissingOn(s, event)
    requires RosterAt(s, event, true, left, rows, byHand)
    ensures var key := (u, event);
            && key in rows
            && rows[key] == RowAt(s.rows, key)
            && RosterAt(s, event, true, left - {u}, rows[key := Listed(s, u, event, true)],
                        if ListedByLeave(s, u, event, true) then byHand - {key} else byHand)
  {
  }

  lemma RosterDone(s: State, event: int, applyLeave: bool, left: set<int>, rows: map<(int, int), Row>,
                   byHand: set<(int, int)>)
    requires event in s.events && (applyLeave ==> left == {})
    requires RosterAt(s, event, applyLeave, left, rows, byHand)
    ensures rows == BuildRoster(s, event, applyLeave).0.rows
    ensures byHand == BuildRoster(s, event, applyLeave).0.byHand
  {
  }

  class Desk {
    const offset: int
    const otherRoles: set<int>
    var leaves: seq<Leave>
    var events: map<int, Event>
    var enrolled: set<(int, int)>
    var rows: map<(int, int), Row>
    var byHand: set<(int, int)>

    function View(): State
      reads this
    {
      State(offset, leaves, events, enrolled, otherRoles, rows, byHand)
    }

    constructor (offset: int, otherRoles: set<int>)
      ensures View() == Empty(offset, otherRoles)
    {
      this.offset, this.otherRoles := offset, otherRoles;
      leaves, events, enrolled, rows, byHand := [], map[], {}, map[], {};
    }

    // -------------------------------------------------------------------------------------
    // Requests

    method Submit(now: int, student: int, start: int, end: Option<int>, reason: string) returns (reply: Reply)
      modifies this
      ensures (View(), reply) == Create(old(View()), now, student, start, end, reason)
    {
      if reason == "" {
        return MissingReason;
      }
      var last := start;
      if end.Some? {
        last := end.value;
      }
      reply := CheckDates(start, last, LocalDay(now, offset));
      if reply != Ok {
        return;
      }
      reply := CheckOverlap(leaves, student, start, last, None);
      if reply != Ok {
        return;
      }
      leaves := leaves + [Leave(student, start, last, reason, Pending, None, None)];
    }

    method EditRequest(now: int, actor: int, seesAll: bool, id: nat, patch: Patch) returns (reply: Reply)
      modifies this
      ensures (View(), reply) == Edit(old(View()), now, actor, seesAll, id, patch)
    {
      reply := OwnPending(View(), actor, seesAll, id);
      if reply != Ok {
        return;
      }
      if Blank(patch.reason) {
        return MissingReason;
      }
      var leave := leaves[id];
      if patch.start.Some? {
        leave := leave.(start := patch.start.value);
      }
      if patch.end.Some? {
        leave := leave.(end := if patch.end.value.Some? then patch.end.value.value else leave.start);
      }
      if patch.reason.Some? {
        leave := leave.(reason := patch.reason.value);
      }
      reply := CheckDates(leave.start, leave.end, LocalDay(now, offset));
      if reply != Ok {
        return;
      }
      reply := CheckOverlap(leaves, actor, leave.start, leave.end, Some(id));
      if reply != Ok {
        return;
      }
      leaves := leaves[id := leave];
    }

    method CancelRequest(actor: int, seesAll: bool, id: nat) returns (reply: Reply)
      modifies this
      ensures (View(), reply) == Cancel(old(View()), actor, seesAll, id)
    {
      reply := OwnPending(View(), actor, seesAll, id);
      if reply == Ok {
        leaves := leaves[id := leaves[id].(status := Cancelled)];
      }
    }

    method DenyRequest(now: int, id: nat, reason: string) returns (reply: Reply)
      modifies this
      ensures (View(), reply) == Deny(old(View()), now, id, reason)
    {
      if id >= |leaves| {
        return NotFound;
      }
      if reason == "" {
        return MissingReason;
      }
      if leaves[id].status != Pending {
        return NotPending;
      }
      leaves := leaves[id := leaves[id].(status := Denied, denialReason := Some(reason), reviewedAt := Some(now))];
      reply := Ok;
    }

    // -------------------------------------------------------------------------------------
    // Attendance

    /** Excuses one row unless it is present or late; says whether it did. */
    method MarkAbsentForLeave(key: (int, int), id: nat) returns (changed: bool)
      requires key in rows
      modifies this`rows, this`byHand
      ensures rows == old(rows)[key := Excused(old(rows)[key], id)]
      ensures changed == !Protected(old(rows)[key])
      ensures byHand == if changed then old(byHand) - {key} else old(byHand)
    {
      var row := rows[key];
      if Protected(row) {
        rows := rows[key := row];
        return false;
      }
      rows := rows[key := row.(status := AbsentWithLeave, note := ResolveNote(row.note, id))];
      byHand := byHand - {key};
      return true;
    }

    /** Looks a live row up or creates it, then excuses it; a soft-deleted row is in the way. */
    method ExcuseOne(key: (int, int), id: nat) returns (raised: bool, changed: bool)
      modifies this`rows, this`byHand
      ensures raised == (key in old(rows) && old(rows)[key].deleted)
      ensures !raised ==> changed == !Protected(RowAt(old(rows), key))
      ensures !raised ==> rows == old(rows)[key := Excused(RowAt(old(rows), key), id)]
      ensures !raised ==> byHand == if changed then old(byHand) - {key} else old(byHand)
    {
      if key in rows && rows[key].deleted {
        return true, false;
      }
      if key !in rows {
        rows := rows[key := FRESH];
      }
      changed := MarkAbsentForLeave(key, id);
      raised := false;
    }

    /** One more event, after those visited so far. */
    method ExcuseNext(student: int, e: int, id: nat, sofar: nat, ghost s0: State, ghost visited: set<int>)
      returns (raised: bool, updated: nat)
      requires e !in visited
      requires Applied(s0.rows, s0.byHand, student, visited, id, rows, byHand, sofar)
      modifies this`rows, this`byHand
      ensures raised == ((student, e) in s0.rows && s0.rows[(student, e)].deleted)
      ensures !raised ==> Applied(s0.rows, s0.byHand, student, visited + {e}, id, rows, byHand, updated)
    {
      OneMore(s0.rows, s0.byHand, student, visited, id, rows, byHand, sofar, e);
      var changed;
      raised, changed := ExcuseOne((student, e), id);
      updated := if changed then sofar + 1 else sofar;
    }

    /** The events of one day, after those of the days before. */
    method ExcuseDay(student: int, today: set<int>, id: nat, sofar: nat, ghost s0: State, ghost done: set<int>)
      returns (raised: bool, updated: nat)
      requires today !! done
      requires Applied(s0.rows, s0.byHand, student, done, id, rows, byHand, sofar)
      modifies this`rows, this`byHand
      ensures raised == HasDeleted(s0.rows, student, done + today)
      ensures !raised ==> Applied(s0.rows, s0.byHand, student, done + today, id, rows, byHand, updated)
    {
      updated := sofar;
      var left := today;
      ghost var visited := done;
      while left != {}
        invariant left <= today
        invariant visited == done + (today - left)
        invariant Applied(s0.rows, s0.byHand, student, visited, id, rows, byHand, updated)
        decreases |left|
      {
        var e := Choose(left);
        left := left - {e};
        raised, updated := ExcuseNext(student, e, id, updated, s0, visited);
        if raised {
          assert s0.rows[(student, e)].deleted;
          return;
        }
        visited := visited + {e};
      }
      assert visited == done + today;
      raised := false;
    }

    /** Day by day and event by event, creating missing rows; stops at a soft-deleted row. */
    method ApplyApprovedLeave(id: nat) returns (raised: bool, updated: nat)
      requires id < |leaves|
      modifies this`rows, this`byHand
      ensures var leave := leaves[id];
              var visited := EventsBetween(old(View()), leave.student, leave.start, leave.end);
              && raised == HasDeleted(old(rows), leave.student, visited)
              && (!raised ==>
                  && rows == ApplyTo(old(rows), leave.student, visited, id)
                  && byHand == ApplyByHand(old(rows), old(byHand), leave.student, visited)
                  && updated == |Unprotected(old(rows), leave.student, visited)|)
    {
      ghost var s0 := View();
      var leave := leaves[id];
      var student := leave.student;
      var courses := CoursesOf(View(), student);
      ghost var done: set<int> := {};
      var day := leave.start;
      updated := 0;
      while day <= leave.end
        invariant leave.start <= day && (day <= leave.end + 1 || day == leave.start)
        invariant done == EventsBetween(s0, student, leave.start, day - 1)
        invariant Applied(s0.rows, s0.byHand, student, done, id, rows, byHand, updated)
      {
        var today := EventsOnDay(View(), courses, day);
        SameEvents(s0, View(), student, day);
        EventsOfDay(s0, student, day);
        assert done + today == EventsBetween(s0, student, leave.start, day);
        raised, updated := ExcuseDay(student, today, id, updated, s0, done);
        if raised {
          return;
        }
        done := done + today;
        day := day + 1;
      }
      assert done == EventsBetween(s0, student, leave.start, leave.end);
      raised := false;
    }

    method ApproveRequest(now: int, id: nat) returns (reply: Reply)
      modifies this
      ensures (View(), reply) == Approve(old(View()), now, id)
    {
      if id >= |leaves| {
        return NotFound;
      }
      if leaves[id].status != Pending {
        return NotPending;
      }
      var savedLeaves, savedRows, savedByHand := leaves, rows, byHand;
      leaves := leaves[id := leaves[id].(status := Approved, reviewedAt := Some(now))];
      ghost var events := EventsBetween(old(View()), leaves[id].student, leaves[id].start, leaves[id].end);
      assert events == EventsBetween(View(), leaves[id].student, leaves[id].start, leaves[id].end);
      var raised, updated := ApplyApprovedLeave(id);
      if raised {
        leaves, rows, byHand := savedLeaves, savedRows, savedByHand;
        return Raised;
      }
      reply := Ok;
    }

    /** The lazy path: excuses a live row if an approved leave covers its event. */
    method MaybeApplyApprovedLeave(student: int, event: int)
      requires (student, event) in rows && !rows[(student, event)].deleted
      modifies this`rows, this`byHand
      ensures rows == old(rows)[(student, event) := Listed(old(View()), student, event, true)]
      ensures byHand == if ListedByLeave(old(View()), student, event, true) then old(byHand) - {(student, event)}
                        else old(byHand)
    {
      var key := (student, event);
      if event !in events {
        rows := rows[key := rows[key]];
        return;
      }
      var leave := CoveringLeave(leaves, |leaves|, student, LocalDay(events[event].at, offset));
      if leave.None? {
        rows := rows[key := rows[key]];
        return;
      }
      var changed := MarkAbsentForLeave(key, leave.value);
    }

    /** Looks at the live rows of the missing students once more, excusing those on leave. */
    method ExcuseMissing(event: int, missing: set<int>, ghost s0: State)
      requires event in s0.events && missing == MissingOn(s0, event)
      requires View() == s0.(rows := rows) && RosterAt(s0, event, true, missing, rows, byHand)
      modifies this`rows, this`byHand
      ensures RosterAt(s0, event, true, {}, rows, byHand)
    {
      var left := missing;
      while left != {}
        invariant left <= missing
        invariant View() == s0.(rows := rows, byHand := byHand)
        invariant RosterAt(s0, event, true, left, rows, byHand)
        decreases |left|
      {
        var u := Choose(left);
        ListedOneMore(s0, event, left, rows, byHand, u);
        left := left - {u};
        var key := (u, event);
        assert Listed(View(), u, event, true) == Listed(s0, u, event, true);
        if rows[key].deleted {
          assert rows == rows[key := Listed(s0, u, event, true)];
        } else {
          MaybeApplyApprovedLeave(u, event);
        }
      }
    }

    method BuildMarkingRoster(event: int, applyLeave: bool) returns (reply: Reply)
      modifies this
      ensures (View(), reply) == BuildRoster(old(View()), event, applyLeave)
    {
      if event !in events {
        return NotFound;
      }
      ghost var s0 := View();
      var missing := MissingOn(View(), event);
      // Create the missing rows; a key that is already taken is skipped.
      rows := map key | key in rows.Keys + MissingKeys(View(), event) :: RowAt(rows, key);
      assert RosterAt(s0, event, applyLeave, missing, rows, byHand);
      if applyLeave {
        ExcuseMissing(event, missing, s0);
        RosterDone(s0, event, true, {}, rows, byHand);
      } else {
        RosterDone(s0, event, false, missing, rows, byHand);
      }
      reply := Ok;
    }

    method Mark(student: int, event: int, status: Status, note: string) returns (reply: Reply)
      modifies this
      ensures (View(), reply) == StaffMark(old(View()), student, event, status, note)
    {
      var key := (student, event);
      if key !in rows || rows[key].deleted {
        return NotFound;
      }
      rows := rows[key := Row(status, note, false)];
      byHand := byHand + {key};
      reply := Ok;
    }
  }
}
