/**
 Leave requests and what an approved leave does to attendance. Days are numbered in the
 tenant's time zone, a fixed offset from UTC; an instant is a number of seconds. A request's id
 is its index in the table, and requests are listed newest first.
 */
module LeaveRequests {
  import opened Wrappers
  import opened AttendanceTables

  const DAY := 86400

  datatype LeaveStatus = Pending | Approved | Denied | Cancelled

  datatype Leave = Leave(
    student: int, start: int, end: int, reason: string, status: LeaveStatus,
    denialReason: Option<string>, reviewedAt: Option<int>)

  datatype Event = Event(course: int, at: int)

  /** A row of the attendance table; an empty note stands for a missing one. */
  datatype Row = Row(status: Status, note: string, deleted: bool)

  const FRESH := Row(Unregistered, "", false)

  /** `byHand` holds the rows whose status was last set by staff; the table has no such column. */
  datatype State = State(
    offset: int,
    leaves: seq<Leave>,
    events: map<int, Event>,
    enrolled: set<(int, int)>,
    otherRoles: set<int>, // users with a role besides student
    rows: map<(int, int), Row>,
    byHand: set<(int, int)>)

  datatype Reply =
    | Ok
    | NotFound
    | Forbidden
    | NotPending
    | MissingReason
    | StartInPast
    | EndBeforeStart
    | Overlap(existing: nat, existingStatus: LeaveStatus)
    | Raised

  function LocalDay(at: int, offset: int): int { (at + offset) / DAY }

  // ---------------------------------------------------------------------------------------
  // Requests

  predicate Blocking(leave: Leave) { leave.status == Pending || leave.status == Approved }

  predicate Meets(leave: Leave, start: int, end: int) { leave.start <= end && leave.end >= start }

  predicate Clashes(leaves: seq<Leave>, k: nat, student: int, start: int, end: int, exclude: Option<nat>)
    requires k < |leaves|
  {
    && leaves[k].student == student
    && Blocking(leaves[k])
    && Meets(leaves[k], start, end)
    && exclude != Some(k)
  }

  /** The newest clashing request. */
  function FindOverlap(leaves: seq<Leave>, n: nat, student: int, start: int, end: int,
                       exclude: Option<nat>): (found: Option<nat>)
    requires n <= |leaves|
    ensures found.None? ==> forall k :: 0 <= k < n ==> !Clashes(leaves, k, student, start, end, exclude)
    ensures found.Some? ==> found.value < n && Clashes(leaves, found.value, student, start, end, exclude)
    ensures found.Some? ==> forall k :: found.value < k < n ==> !Clashes(leaves, k, student, start, end, exclude)
  {
    if n == 0 then None
    else if Clashes(leaves, n - 1, student, start, end, exclude) then Some(n - 1)
    else FindOverlap(leaves, n - 1, student, start, end, exclude)
  }

  function CheckDates(start: int, end: int, today: int): Reply {
    if start < today then StartInPast
    else if end < start then EndBeforeStart
    else Ok
  }

  function CheckOverlap(leaves: seq<Leave>, student: int, start: int, end: int, exclude: Option<nat>): Reply {
    var found := FindOverlap(leaves, |leaves|, student, start, end, exclude);
    if found.Some? then Overlap(found.value, leaves[found.value].status) else Ok
  }

  /** A text that is present but blank once stripped. */
  predicate Blank(text: Option<string>) { text == Some("") }

  /** A missing end date means a leave of one day. The reason arrives stripped. */
  function CreateReply(s: State, now: int, student: int, start: int, end: Option<int>, reason: string): Reply {
    var last := if end.Some? then end.value else start;
    if reason == "" then MissingReason
    else
      var dates := CheckDates(start, last, LocalDay(now, s.offset));
      if dates != Ok then dates else CheckOverlap(s.leaves, student, start, last, None)
  }

  function Created(s: State, student: int, start: int, end: Option<int>, reason: string): State {
    var last := if end.Some? then end.value else start;
    s.(leaves := s.leaves + [Leave(student, start, last, reason, Pending, None, None)])
  }

  function Create(s: State, now: int, student: int, start: int, end: Option<int>, reason: string): (State, Reply) {
    var reply := CreateReply(s, now, student, start, end, reason);
    (if reply == Ok then Created(s, student, start, end, reason) else s, reply)
  }

  /** What a patch sends: fields left out are None; `end` may also be sent as null. */
  datatype Patch = Patch(start: Option<int>, end: Option<Option<int>>, reason: Option<string>)

  function Patched(leave: Leave, patch: Patch): Leave {
    var start := if patch.start.Some? then patch.start.value else leave.start;
    var end := if patch.end.None? then leave.end
               else if patch.end.value.None? then start
               else patch.end.value.value;
    leave.(start := start, end := end, reason := if patch.reason.Some? then patch.reason.value else leave.reason)
  }

  /** Whether the acting user may reach a request at all, and then whether it is theirs. */
  function OwnPending(s: State, actor: int, seesAll: bool, id: nat): Reply {
    if id >= |s.leaves| || (!seesAll && s.leaves[id].student != actor) then NotFound
    else if s.leaves[id].student != actor then Forbidden
    else if s.leaves[id].status != Pending then NotPending
    else Ok
  }

  function EditReply(s: State, now: int, actor: int, seesAll: bool, id: nat, patch: Patch): Reply {
    var own := OwnPending(s, actor, seesAll, id);
    if own != Ok then own
    else if Blank(patch.reason) then MissingReason
    else
      var leave := Patched(s.leaves[id], patch);
      var dates := CheckDates(leave.start, leave.end, LocalDay(now, s.offset));
      if dates != Ok then dates else CheckOverlap(s.leaves, actor, leave.start, leave.end, Some(id))
  }

  function Edit(s: State, now: int, actor: int, seesAll: bool, id: nat, patch: Patch): (State, Reply) {
    var reply := EditReply(s, now, actor, seesAll, id, patch);
    (if reply == Ok then s.(leaves := s.leaves[id := Patched(s.leaves[id], patch)]) else s, reply)
  }

  function Cancel(s: State, actor: int, seesAll: bool, id: nat): (State, Reply) {
    var reply := OwnPending(s, actor, seesAll, id);
    (if reply == Ok then s.(leaves := s.leaves[id := s.leaves[id].(status := Cancelled)]) else s, reply)
  }

  function Deny(s: State, now: int, id: nat, reason: string): (State, Reply) {
    if id >= |s.leaves| then (s, NotFound)
    else if reason == "" then (s, MissingReason)
    else if s.leaves[id].status != Pending then (s, NotPending)
    else
      var denied := s.leaves[id].(status := Denied, denialReason := Some(reason), reviewedAt := Some(now));
      (s.(leaves := s.leaves[id := denied]), Ok)
  }

  // ---------------------------------------------------------------------------------------
  // Attendance

  function Digits(n: nat): string {
    if n < 10 then ["0123456789"[n]] else Digits(n / 10) + ["0123456789"[n % 10]]
  }

  function LeaveNote(id: nat): string { "Approved leave #" + Digits(id) }

  predicate OccursAt(text: string, part: string, i: nat) {
    i + |part| <= |text| && text[i..i + |part|] == part
  }

  predicate Contains(text: string, part: string) {
    exists i :: 0 <= i <= |text| && OccursAt(text, part, i)
  }

  function ResolveNote(existing: string, id: nat): string {
    if existing == "" then LeaveNote(id)
    else if Contains(existing, LeaveNote(id)) then existing
    else existing + "\n" + LeaveNote(id)
  }

  /** Present and late survive an approved leave. */
  predicate Protected(row: Row) { Attended(row.status) }

  function Excused(row: Row, id: nat): Row {
    if Protected(row) then row
    else row.(status := AbsentWithLeave, note := ResolveNote(row.note, id))
  }

  function CoursesOf(s: State, student: int): set<int> {
    set pair | pair in s.enrolled && pair.0 == student :: pair.1
  }

  /** The events of a local day, looked up in a wider window of instants first. */
  function EventsOnDay(s: State, courses: set<int>, day: int): set<int> {
    var from := day * DAY - s.offset - DAY;
    var to := (day + 1) * DAY - s.offset + DAY;
    set e | e in s.events && s.events[e].course in courses && from <= s.events[e].at < to
            && LocalDay(s.events[e].at, s.offset) == day
  }

  /** The events of the student's courses whose local day lies in the range. */
  function EventsBetween(s: State, student: int, start: int, end: int): set<int> {
    set e | e in s.events && (student, s.events[e].course) in s.enrolled
            && start <= LocalDay(s.events[e].at, s.offset) <= end
  }

  function RowAt(rows: map<(int, int), Row>, key: (int, int)): Row {
    if key in rows then rows[key] else FRESH
  }

  function Keys(student: int, events: set<int>): set<(int, int)> { set e | e in events :: (student, e) }

  /** The rows after a leave was applied to the given events, creating missing rows. */
  function ApplyTo(rows: map<(int, int), Row>, student: int, events: set<int>, id: nat): map<(int, int), Row> {
    map key | key in rows.Keys + Keys(student, events) ::
      if key in Keys(student, events) then Excused(RowAt(rows, key), id) else rows[key]
  }

  /** Applying a leave drops the rows it changes from those last set by hand. */
  function ApplyByHand(rows: map<(int, int), Row>, byHand: set<(int, int)>, student: int,
                       events: set<int>): set<(int, int)> {
    set key | key in byHand && !(key in Keys(student, events) && !Protected(RowAt(rows, key)))
  }

  /** A soft-deleted row is invisible to the lookup but still taken, so creating it fails. */
  predicate HasDeleted(rows: map<(int, int), Row>, student: int, events: set<int>) {
    exists e :: e in events && (student, e) in rows && rows[(student, e)].deleted
  }

  /** Approval is one transaction: when applying the leave raises, nothing changes. */
  function Approve(s: State, now: int, id: nat): (State, Reply) {
    if id >= |s.leaves| then (s, NotFound)
    else
      var leave := s.leaves[id];
      if leave.status != Pending then (s, NotPending)
      else
        var events := EventsBetween(s, leave.student, leave.start, leave.end);
        if HasDeleted(s.rows, leave.student, events) then (s, Raised)
        else
          (s.(leaves := s.leaves[id := leave.(status := Approved, reviewedAt := Some(now))],
              rows := ApplyTo(s.rows, leave.student, events, id),
              byHand := ApplyByHand(s.rows, s.byHand, leave.student, events)),
           Ok)
  }

  predicate Covers(leave: Leave, student: int, day: int) {
    leave.student == student && leave.status == Approved && leave.start <= day <= leave.end
  }

  /** Descending order of review time, where a missing time comes first. */
  predicate ReviewedNoEarlier(a: Option<int>, b: Option<int>) {
    a.None? || (b.Some? && a.value >= b.value)
  }

  /** The approved leave covering a day: the last reviewed, then the highest id. */
  function CoveringLeave(leaves: seq<Leave>, n: nat, student: int, day: int): (found: Option<nat>)
    requires n <= |leaves|
    ensures found.Some? ==> found.value < n && Covers(leaves[found.value], student, day)
    ensures found.Some? ==>
              forall k :: 0 <= k < n && Covers(leaves[k], student, day) ==>
                var first, other := leaves[found.value].reviewedAt, leaves[k].reviewedAt;
                && (other.None? ==> first.None?)
                && (first.Some? && other.Some? ==> first.value >= other.value)
                && (first == other ==> k <= found.value)
    ensures found.None? ==> forall k :: 0 <= k < n ==> !Covers(leaves[k], student, day)
  {
    if n == 0 then None
    else
      var older := CoveringLeave(leaves, n - 1, student, day);
      if !Covers(leaves[n - 1], student, day) then older
      else if older.Some? && !ReviewedNoEarlier(leaves[n - 1].reviewedAt, leaves[older.value].reviewedAt) then older
      else Some(n - 1)
  }

  function LeaveFor(s: State, student: int, event: int): Option<nat> {
    if event in s.events
    then CoveringLeave(s.leaves, |s.leaves|, student, LocalDay(s.events[event].at, s.offset))
    else None
  }

  /** The row of a student the marking roster found no row for, once the roster was built. Only
      live rows are looked at again; a student with other roles may have one already. */
  function Listed(s: State, student: int, event: int, applyLeave: bool): Row {
    var row := RowAt(s.rows, (student, event));
    var leave := LeaveFor(s, student, event);
    if applyLeave && !row.deleted && leave.Some? then Excused(row, leave.value) else row
  }

  predicate ListedByLeave(s: State, student: int, event: int, applyLeave: bool) {
    var row := RowAt(s.rows, (student, event));
    applyLeave && !row.deleted && LeaveFor(s, student, event).Some? && !Protected(row)
  }

  function StudentsOf(s: State, course: int): set<int> {
    set pair | pair in s.enrolled && pair.1 == course :: pair.0
  }

  /** The enrolled students without a live row, as the roster's query sees it: that query
      leaves out users with other roles. */
  function MissingOn(s: State, event: int): set<int>
    requires event in s.events
  {
    set u | u in StudentsOf(s, s.events[event].course)
            && !((u, event) in s.rows && !s.rows[(u, event)].deleted && u !in s.otherRoles)
  }

  function MissingKeys(s: State, event: int): set<(int, int)>
    requires event in s.events
  {
    set u | u in MissingOn(s, event) :: (u, event)
  }

  /** Only callers without a tenant skip the leave; both callers of the roster pass theirs. */
  function BuildRoster(s: State, event: int, applyLeave: bool): (State, Reply) {
    if event !in s.events then (s, NotFound)
    else
      var missing := MissingKeys(s, event);
      (s.(rows := map key | key in s.rows.Keys + missing ::
                    if key in missing then Listed(s, key.0, event, applyLeave) else s.rows[key],
          byHand := set key | key in s.byHand
                      && !(key in missing && ListedByLeave(s, key.0, event, applyLeave))),
       Ok)
  }

  function StaffMark(s: State, student: int, event: int, status: Status, note: string): (State, Reply) {
    var key := (student, event);
    if key !in s.rows || s.rows[key].deleted then (s, NotFound)
    else
      (s.(rows := s.rows[key := Row(status, note, false)], byHand := s.byHand + {key}), Ok)
  }

  function SetDeleted(s: State, student: int, event: int, deleted: bool): State {
    var key := (student, event);
    if key in s.rows then s.(rows := s.rows[key := s.rows[key].(deleted := deleted)]) else s
  }

  function Enrol(s: State, student: int, course: int): State { s.(enrolled := s.enrolled + {(student, course)}) }

  /** An event is scheduled under an id that no event has. */
  function Schedule(s: State, id: int, event: Event): State {
    if id in s.events then s else s.(events := s.events[id := event])
  }

  datatype Op =
    | CreateOp(now: int, student: int, start: int, end: Option<int>, reason: string)
    | EditOp(now: int, actor: int, seesAll: bool, id: nat, patch: Patch)
    | CancelOp(actor: int, seesAll: bool, id: nat)
    | ApproveOp(now: int, id: nat)
    | DenyOp(now: int, id: nat, reason: string)
    | RosterOp(event: int)
    | MarkOp(student: int, event: int, status: Status, note: string)
    | DeleteOp(student: int, event: int, deleted: bool)
    | EnrolOp(student: int, course: int)
    | ScheduleOp(event: int, what: Event)

  function Step(s: State, op: Op): State {
    match op
    case CreateOp(now, student, start, end, reason) => Create(s, now, student, start, end, reason).0
    case EditOp(now, actor, seesAll, id, patch) => Edit(s, now, actor, seesAll, id, patch).0
    case CancelOp(actor, seesAll, id) => Cancel(s, actor, seesAll, id).0
    case ApproveOp(now, id) => Approve(s, now, id).0
    case DenyOp(now, id, reason) => Deny(s, now, id, reason).0
    case RosterOp(event) => BuildRoster(s, event, true).0
    case MarkOp(student, event, status, note) => StaffMark(s, student, event, status, note).0
    case DeleteOp(student, event, deleted) => SetDeleted(s, student, event, deleted)
    case EnrolOp(student, course) => Enrol(s, student, course)
    case ScheduleOp(event, what) => Schedule(s, event, what)
  }

  function Run(s: State, ops: seq<Op>): State
    decreases |ops|
  {
    if ops == [] then s else Run(Step(s, ops[0]), ops[1..])
  }

  function Empty(offset: int, otherRoles: set<int>): State {
    State(offset, [], map[], {}, otherRoles, map[], {})
  }
}
