/**
 The attendance summary of a course by student and month, and the monthly matrix. The summary
 adds grouped query results up cell by cell; the matrix looks every session up. A month is the
 number year * 12 + month - 1, and `month` says in which month an instant falls.
 */
module AttendanceSummary {
  import opened Wrappers
  import opened AttendanceTables
  import GodView

  // ---------------------------------------------------------------------------------------
  // Month anchors

  datatype Date = Date(year: int, month: int)

  function MonthIndex(d: Date): int { d.year * 12 + d.month - 1 }

  predicate ValidDate(d: Date) { 1 <= d.month <= 12 }

  /** All months from the course's start through its end, each once and in order. */
  method MonthAnchors(start: Option<Date>, end: Option<Date>) returns (anchors: seq<Date>)
    requires (start.Some? ==> ValidDate(start.value)) && (end.Some? ==> ValidDate(end.value))
    ensures start.None? || end.None? ==> anchors == []
    ensures start.Some? && end.Some? ==>
              && |anchors| == (if MonthIndex(start.value) <= MonthIndex(end.value)
                               then MonthIndex(end.value) - MonthIndex(start.value) + 1 else 0)
              && forall i | 0 <= i < |anchors| ::
                   ValidDate(anchors[i]) && MonthIndex(anchors[i]) == MonthIndex(start.value) + i
  {
    anchors := [];
    if start.None? || end.None? {
      return;
    }
    var cursor, last := start.value, end.value;
    while cursor.year < last.year || (cursor.year == last.year && cursor.month <= last.month)
      invariant ValidDate(cursor)
      invariant MonthIndex(cursor) == MonthIndex(start.value) + |anchors|
      invariant |anchors| > 0 ==> MonthIndex(cursor) <= MonthIndex(last) + 1
      invariant forall i | 0 <= i < |anchors| ::
                  ValidDate(anchors[i]) && MonthIndex(anchors[i]) == MonthIndex(start.value) + i
      decreases MonthIndex(last) - MonthIndex(cursor)
    {
      anchors := anchors + [cursor];
      if cursor.month == 12 {
        cursor := Date(cursor.year + 1, 1);
      } else {
        cursor := Date(cursor.year, cursor.month + 1);
      }
    }
  }

  // ---------------------------------------------------------------------------------------
  // The tables, by month

  function SessionsIn(sessions: set<Session>, month: int -> int, a: int): set<int> {
    set e <- sessions | month(e.date) == a :: e.id
  }

  /** Sessions in any of the given months. */
  function SessionsDuring(sessions: set<Session>, month: int -> int, anchors: seq<int>): set<int> {
    set e <- sessions | month(e.date) in anchors :: e.id
  }

  function Students(students: seq<int>): set<int> { set u | u in students }

  ghost predicate Distinct(s: seq<int>) { forall i, j | 0 <= i < j < |s| :: s[i] != s[j] }

  ghost function AttendedBy(marks: set<Mark>, users: set<int>, events: set<int>): nat {
    |Rows(marks, users, events, InAttended)|
  }

  lemma AttendedAddsUp(marks: set<Mark>, users: set<int>, us: set<int>, events: set<int>, es: set<int>)
    ensures us !! users ==>
              AttendedBy(marks, users + us, events) == AttendedBy(marks, users, events) + AttendedBy(marks, us, events)
    ensures es !! events ==>
              AttendedBy(marks, users, events + es) == AttendedBy(marks, users, events) + AttendedBy(marks, users, es)
  {
    if us !! users {
      assert Rows(marks, users + us, events, InAttended) ==
             Rows(marks, users, events, InAttended) + Rows(marks, us, events, InAttended);
    }
    if es !! events {
      assert Rows(marks, users, events + es, InAttended) ==
             Rows(marks, users, events, InAttended) + Rows(marks, users, es, InAttended);
    }
  }

  lemma AttendedAtMostScheduled(marks: set<Mark>, users: set<int>, events: set<int>)
    requires UniqueMarks(marks)
    ensures AttendedBy(marks, users, events) <= |users| * |events|
  {
    RowsAreCells(marks, users, events, InAttended);
    AttendedOrMissed(marks, users, events);
  }

  lemma NextMonth(sessions: set<Session>, month: int -> int, anchors: seq<int>, j: nat)
    requires UniqueIds(sessions) && Distinct(anchors) && j < |anchors|
    ensures SessionsDuring(sessions, month, anchors[..j + 1]) ==
            SessionsDuring(sessions, month, anchors[..j]) + SessionsIn(sessions, month, anchors[j])
    ensures SessionsDuring(sessions, month, anchors[..j]) !! SessionsIn(sessions, month, anchors[j])
  {
  }

  // ---------------------------------------------------------------------------------------
  // The summary

  datatype Cell = Cell(attended: int, total: int)

  datatype StudentRow = StudentRow(byMonth: map<int, Cell>, course: Cell)

  datatype Summary = Summary(students: map<int, StudentRow>, months: map<int, Cell>, course: Cell)

  const EMPTY := Summary(map[], map[], Cell(0, 0))

  datatype SessionGroup = SessionGroup(anchor: int, count: nat)

  datatype AttendedGroup = AttendedGroup(user: int, anchor: int, count: nat)

  /** Events grouped by month: each month that has events once. */
  ghost predicate SessionsGrouped(groups: seq<SessionGroup>, sessions: set<Session>, month: int -> int) {
    && (forall g <- groups :: g.count == |SessionsIn(sessions, month, g.anchor)|)
    && (forall a: int | SessionsIn(sessions, month, a) != {} :: exists g :: g in groups && g.anchor == a)
  }

  /** Attended rows of the listed students grouped by student and month. */
  ghost predicate AttendedGrouped(groups: seq<AttendedGroup>, students: seq<int>, marks: set<Mark>,
                                  sessions: set<Session>, month: int -> int) {
    && (forall g <- groups ::
          g.user in students && g.count == AttendedBy(marks, {g.user}, SessionsIn(sessions, month, g.anchor)))
    && (forall u: int, a: int | u in students && AttendedBy(marks, {u}, SessionsIn(sessions, month, a)) > 0 ::
          exists g :: g in groups && g.user == u && g.anchor == a)
  }

  method CountSessions(anchors: seq<int>, groups: seq<SessionGroup>, ghost sessions: set<Session>, month: int -> int)
    returns (counts: map<int, int>)
    requires SessionsGrouped(groups, sessions, month)
    ensures counts.Keys == (set a | a in anchors)
    ensures forall a <- counts :: counts[a] == |SessionsIn(sessions, month, a)|
  {
    counts := map a | a in anchors :: 0;
    for i := 0 to |groups|
      invariant counts.Keys == (set a | a in anchors)
      invariant forall a <- counts :: counts[a] ==
                  if exists g <- groups[..i] :: g.anchor == a then |SessionsIn(sessions, month, a)| else 0
    {
      assert groups[..i + 1] == groups[..i] + [groups[i]];
      if groups[i].anchor in counts {
        counts := counts[groups[i].anchor := groups[i].count];
      }
    }
    assert groups[..|groups|] == groups;
    forall a <- counts
      ensures counts[a] == |SessionsIn(sessions, month, a)|
    {
      assert SessionsIn(sessions, month, a) == {} ==> |SessionsIn(sessions, month, a)| == 0;
    }
  }

  method CountAttended(counts: map<int, int>, groups: seq<AttendedGroup>, ghost students: seq<int>,
                       ghost marks: set<Mark>, ghost sessions: set<Session>, month: int -> int)
    returns (attended: map<(int, int), int>)
    requires AttendedGrouped(groups, students, marks, sessions, month)
    ensures forall u, a | u in students && a in counts ::
              AttendedBy(marks, {u}, SessionsIn(sessions, month, a)) ==
              if (u, a) in attended then attended[(u, a)] else 0
  {
    attended := map[];
    for i := 0 to |groups|
      invariant forall k <- attended :: attended[k] == AttendedBy(marks, {k.0}, SessionsIn(sessions, month, k.1))
      invariant forall g <- groups[..i] :: g.anchor in counts ==> (g.user, g.anchor) in attended
    {
      assert groups[..i + 1] == groups[..i] + [groups[i]];
      var g := groups[i];
      if g.anchor in counts {
        attended := attended[(g.user, g.anchor) := g.count];
      }
    }
    assert groups[..|groups|] == groups;
  }

  function At(attended: map<(int, int), int>, u: int, a: int): int {
    if (u, a) in attended then attended[(u, a)] else 0
  }

  function RowSum(attended: map<(int, int), int>, u: int, anchors: seq<int>): int {
    if anchors == [] then 0
    else RowSum(attended, u, anchors[..|anchors| - 1]) + At(attended, u, anchors[|anchors| - 1])
  }

  function ColumnSum(attended: map<(int, int), int>, students: seq<int>, a: int): int {
    if students == [] then 0
    else ColumnSum(attended, students[..|students| - 1], a) + At(attended, students[|students| - 1], a)
  }

  function Scheduled(counts: map<int, int>, anchors: seq<int>): int {
    if anchors == [] then 0
    else
      var a := anchors[|anchors| - 1];
      Scheduled(counts, anchors[..|anchors| - 1]) + if a in counts then counts[a] else 0
  }

  function GrandSum(attended: map<(int, int), int>, students: seq<int>, anchors: seq<int>): int {
    if students == [] then 0
    else GrandSum(attended, students[..|students| - 1], anchors) + RowSum(attended, students[|students| - 1], anchors)
  }

  ghost predicate RowOf(row: StudentRow, u: int, anchors: seq<int>, counts: map<int, int>,
                        attended: map<(int, int), int>)
    requires forall a <- anchors :: a in counts
  {
    && (forall a <- anchors :: a in row.byMonth && row.byMonth[a] == Cell(At(attended, u, a), counts[a]))
    && row.course == Cell(RowSum(attended, u, anchors), Scheduled(counts, anchors))
  }

  /** The summary adds the looked-up numbers up along rows, along columns, and over rows. */
  ghost predicate AddsUp(s: Summary, students: seq<int>, anchors: seq<int>, counts: map<int, int>,
                         attended: map<(int, int), int>)
    requires forall a <- anchors :: a in counts
  {
    && (forall u <- students :: u in s.students && RowOf(s.students[u], u, anchors, counts, attended))
    && (forall a <- anchors :: a in s.months && s.months[a] ==
          Cell(ColumnSum(attended, students, a), counts[a] * |students|))
    && s.course == Cell(GrandSum(attended, students, anchors), Scheduled(counts, anchors) * |students|)
  }

  /** One student's row, and what it adds to the class by month. */
  method AddStudent(sid: int, anchors: seq<int>, counts: map<int, int>, attended: map<(int, int), int>,
                    before: map<int, Cell>) returns (row: StudentRow, months: map<int, Cell>)
    requires Distinct(anchors) && forall a <- anchors :: a in before && a in counts
    ensures RowOf(row, sid, anchors, counts, attended)
    ensures forall a <- anchors :: a in months && months[a] ==
              before[a].(attended := before[a].attended + At(attended, sid, a))
  {
    months := before;
    forall k | 0 <= k < |anchors|
      ensures anchors[k] in before && anchors[k] in counts
    {
      var a := anchors[k];
      assert a in anchors;
    }
    var byMonth: map<int, Cell>, own, total := map[], 0, 0;
    for j := 0 to |anchors|
      invariant own == RowSum(attended, sid, anchors[..j]) && total == Scheduled(counts, anchors[..j])
      invariant forall k | 0 <= k < j :: anchors[k] in byMonth &&
                  byMonth[anchors[k]] == Cell(At(attended, sid, anchors[k]), counts[anchors[k]])
      invariant forall k | 0 <= k < |anchors| :: anchors[k] in months && months[anchors[k]] ==
                  before[anchors[k]].(attended := before[anchors[k]].attended +
                                                  if k < j then At(attended, sid, anchors[k]) else 0)
    {
      assert anchors[..j + 1][..j] == anchors[..j];
      var a := anchors[j];
      var n := At(attended, sid, a);
      byMonth := byMonth[a := Cell(n, counts[a])];
      own := own + n;
      total := total + counts[a];
      months := months[a := months[a].(attended := months[a].attended + n)];
    }
    assert anchors[..|anchors|] == anchors;
    row := StudentRow(byMonth, Cell(own, total));
  }

  method AddRows(students: seq<int>, anchors: seq<int>, counts: map<int, int>, attended: map<(int, int), int>)
    returns (s: Summary)
    requires Distinct(students) && Distinct(anchors) && forall a <- anchors :: a in counts
    ensures AddsUp(s, students, anchors, counts, attended)
  {
    var rows: map<int, StudentRow> := map[];
    var months := map a | a in anchors :: Cell(0, counts[a] * |students|);
    var own, total := 0, 0;
    for i := 0 to |students|
      invariant forall k | 0 <= k < i ::
                  students[k] in rows && RowOf(rows[students[k]], students[k], anchors, counts, attended)
      invariant forall a <- anchors :: a in months && months[a] ==
                  Cell(ColumnSum(attended, students[..i], a), counts[a] * |students|)
      invariant own == GrandSum(attended, students[..i], anchors) && total == Scheduled(counts, anchors) * i
    {
      assert students[..i + 1][..i] == students[..i];
      var row, added := AddStudent(students[i], anchors, counts, attended, months);
      rows := rows[students[i] := row];
      months := added;
      own := own + row.course.attended;
      total := total + row.course.total;
    }
    assert students[..|students|] == students;
    s := Summary(rows, months, Cell(own, total));
  }

  method BuildSummary(students: seq<int>, anchors: seq<int>, sessionGroups: seq<SessionGroup>,
                      attendedGroups: seq<AttendedGroup>, ghost sessions: set<Session>,
                      ghost marks: set<Mark>, month: int -> int) returns (s: Summary)
    requires UniqueIds(sessions) && Distinct(students) && Distinct(anchors)
    requires SessionsGrouped(sessionGroups, sessions, month)
    requires AttendedGrouped(attendedGroups, students, marks, sessions, month)
    ensures students == [] || anchors == [] ==> s == Summary(map[], map[], Cell(0, 0))
    ensures students != [] && anchors != [] ==> Accounts(s, students, anchors, sessions, marks, month)
  {
    if students == [] || anchors == [] {
      return EMPTY;
    }
    var counts := CountSessions(anchors, sessionGroups, sessions, month);
    var attended := CountAttended(counts, attendedGroups, students, marks, sessions, month);
    s := AddRows(students, anchors, counts, attended);
    SumsAreCounts(s, students, anchors, counts, attended, sessions, marks, month);
  }

  // ---------------------------------------------------------------------------------------
  // What the sums mean

  /** Every number of the summary is a count of mark rows and of sessions: by student and month, by
      student, by month over the class, and over the whole course. */
  ghost predicate Accounts(s: Summary, students: seq<int>, anchors: seq<int>, sessions: set<Session>,
                           marks: set<Mark>, month: int -> int) {
    var all, during := Students(students), SessionsDuring(sessions, month, anchors);
    && (forall u <- students :: u in s.students &&
          s.students[u].course == Cell(AttendedBy(marks, {u}, during), |during|))
    && (forall u <- students, a <- anchors :: a in s.students[u].byMonth && s.students[u].byMonth[a] ==
          Cell(AttendedBy(marks, {u}, SessionsIn(sessions, month, a)), |SessionsIn(sessions, month, a)|))
    && (forall a <- anchors :: a in s.months && s.months[a] ==
          Cell(AttendedBy(marks, all, SessionsIn(sessions, month, a)), |SessionsIn(sessions, month, a)| * |students|))
    && s.course == Cell(AttendedBy(marks, all, during), |during| * |students|)
  }

  /** The looked-up numbers count the rows of a student in a month. */
  ghost predicate Counted(attended: map<(int, int), int>, students: seq<int>, anchors: seq<int>,
                          sessions: set<Session>, marks: set<Mark>, month: int -> int) {
    forall u <- students, a <- anchors :: At(attended, u, a) == AttendedBy(marks, {u}, SessionsIn(sessions, month, a))
  }

  lemma NextStudent(students: seq<int>, i: nat)
    requires Distinct(students) && i < |students|
    ensures Students(students[..i + 1]) == Students(students[..i]) + {students[i]}
    ensures Students(students[..i]) !! {students[i]}
  {
  }

  lemma {:induction false} RowSumCounts(attended: map<(int, int), int>, u: int, anchors: seq<int>,
                                        sessions: set<Session>,
                                        marks: set<Mark>, month: int -> int)
    requires UniqueIds(sessions) && Distinct(anchors) && Counted(attended, [u], anchors, sessions, marks, month)
    ensures RowSum(attended, u, anchors) == AttendedBy(marks, {u}, SessionsDuring(sessions, month, anchors))
  {
    if anchors == [] {
      assert Rows(marks, {u}, SessionsDuring(sessions, month, []), InAttended) == {};
    } else {
      var n := |anchors| - 1;
      RowSumCounts(attended, u, anchors[..n], sessions, marks, month);
      NextMonth(sessions, month, anchors, n);
      assert anchors[..n + 1] == anchors && anchors[n] in anchors && u in [u];
      AttendedAddsUp(marks, {u}, {}, SessionsDuring(sessions, month, anchors[..n]),
                     SessionsIn(sessions, month, anchors[n]));
    }
  }

  lemma {:induction false} ColumnSumCounts(attended: map<(int, int), int>, students: seq<int>, a: int,
                                           sessions: set<Session>,
                                           marks: set<Mark>, month: int -> int)
    requires Distinct(students) && Counted(attended, students, [a], sessions, marks, month)
    ensures ColumnSum(attended, students, a) == AttendedBy(marks, Students(students), SessionsIn(sessions, month, a))
  {
    if students == [] {
      assert Rows(marks, {}, SessionsIn(sessions, month, a), InAttended) == {};
    } else {
      var n := |students| - 1;
      ColumnSumCounts(attended, students[..n], a, sessions, marks, month);
      NextStudent(students, n);
      assert students[..n + 1] == students && a in [a];
      AttendedAddsUp(marks, Students(students[..n]), {students[n]}, SessionsIn(sessions, month, a), {});
    }
  }

  lemma {:induction false} GrandSumCounts(attended: map<(int, int), int>, students: seq<int>, anchors: seq<int>,
                                          sessions: set<Session>, marks: set<Mark>, month: int -> int)
    requires UniqueIds(sessions) && Distinct(students) && Distinct(anchors)
    requires Counted(attended, students, anchors, sessions, marks, month)
    ensures GrandSum(attended, students, anchors) ==
            AttendedBy(marks, Students(students), SessionsDuring(sessions, month, anchors))
  {
    var during := SessionsDuring(sessions, month, anchors);
    if students == [] {
      assert Rows(marks, {}, during, InAttended) == {};
    } else {
      var n := |students| - 1;
      GrandSumCounts(attended, students[..n], anchors, sessions, marks, month);
      RowSumCounts(attended, students[n], anchors, sessions, marks, month);
      NextStudent(students, n);
      assert students[..n + 1] == students;
      AttendedAddsUp(marks, Students(students[..n]), {students[n]}, during, {});
    }
  }

  lemma {:induction false} ScheduledCounts(counts: map<int, int>, anchors: seq<int>, sessions: set<Session>,
                                           month: int -> int)
    requires UniqueIds(sessions) && Distinct(anchors)
    requires forall a <- anchors :: a in counts && counts[a] == |SessionsIn(sessions, month, a)|
    ensures Scheduled(counts, anchors) == |SessionsDuring(sessions, month, anchors)|
  {
    if anchors == [] {
      assert SessionsDuring(sessions, month, []) == {};
    } else {
      var n := |anchors| - 1;
      ScheduledCounts(counts, anchors[..n], sessions, month);
      NextMonth(sessions, month, anchors, n);
      assert anchors[..n + 1] == anchors && anchors[n] in anchors;
    }
  }

  lemma SumsAreCounts(s: Summary, students: seq<int>, anchors: seq<int>, counts: map<int, int>,
                      attended: map<(int, int), int>, sessions: set<Session>, marks: set<Mark>, month: int -> int)
    requires UniqueIds(sessions) && Distinct(students) && Distinct(anchors)
    requires forall a <- anchors :: a in counts && counts[a] == |SessionsIn(sessions, month, a)|
    requires Counted(attended, students, anchors, sessions, marks, month)
    requires AddsUp(s, students, anchors, counts, attended)
    ensures Accounts(s, students, anchors, sessions, marks, month)
  {
    ScheduledCounts(counts, anchors, sessions, month);
    GrandSumCounts(attended, students, anchors, sessions, marks, month);
    forall u <- students
      ensures RowSum(attended, u, anchors) == AttendedBy(marks, {u}, SessionsDuring(sessions, month, anchors))
    {
      RowSumCounts(attended, u, anchors, sessions, marks, month);
    }
    forall a <- anchors
      ensures ColumnSum(attended, students, a) == AttendedBy(marks, Students(students), SessionsIn(sessions, month, a))
    {
      ColumnSumCounts(attended, students, a, sessions, marks, month);
    }
  }

  function Total(xs: seq<int>, cells: map<int, Cell>): int {
    if xs == [] then 0
    else
      var x := xs[|xs| - 1];
      Total(xs[..|xs| - 1], cells) + if x in cells then cells[x].attended else 0
  }

  function CourseCells(s: Summary): map<int, Cell> { map u <- s.students :: s.students[u].course }

  /** The column of a month, by student. */
  function MonthCells(s: Summary, a: int): map<int, Cell> {
    map u | u in s.students && a in s.students[u].byMonth :: s.students[u].byMonth[a]
  }

  lemma {:induction false} StudentTotals(cells: map<int, Cell>, students: seq<int>, during: set<int>, marks: set<Mark>)
    requires Distinct(students)
    requires forall u <- students :: u in cells && cells[u].attended == AttendedBy(marks, {u}, during)
    ensures Total(students, cells) == AttendedBy(marks, Students(students), during)
  {
    if students == [] {
      assert Rows(marks, {}, during, InAttended) == {};
    } else {
      var n := |students| - 1;
      StudentTotals(cells, students[..n], during, marks);
      NextStudent(students, n);
      assert students[..n + 1] == students && students[n] in students;
      AttendedAddsUp(marks, Students(students[..n]), {students[n]}, during, {});
    }
  }

  lemma {:induction false} MonthTotals(cells: map<int, Cell>, anchors: seq<int>, users: set<int>,
                                       sessions: set<Session>,
                                       marks: set<Mark>, month: int -> int)
    requires UniqueIds(sessions) && Distinct(anchors)
    requires forall a <- anchors :: a in cells &&
               cells[a].attended == AttendedBy(marks, users, SessionsIn(sessions, month, a))
    ensures Total(anchors, cells) == AttendedBy(marks, users, SessionsDuring(sessions, month, anchors))
  {
    if anchors == [] {
      assert Rows(marks, users, SessionsDuring(sessions, month, []), InAttended) == {};
    } else {
      var n := |anchors| - 1;
      MonthTotals(cells, anchors[..n], users, sessions, marks, month);
      NextMonth(sessions, month, anchors, n);
      assert anchors[..n + 1] == anchors && anchors[n] in anchors;
      AttendedAddsUp(marks, users, {}, SessionsDuring(sessions, month, anchors[..n]),
                     SessionsIn(sessions, month, anchors[n]));
    }
  }

  lemma CourseTotals(s: Summary, students: seq<int>, anchors: seq<int>, sessions: set<Session>,
                     marks: set<Mark>, month: int -> int)
    requires UniqueIds(sessions) && UniqueMarks(marks) && Distinct(students) && Distinct(anchors)
    requires Accounts(s, students, anchors, sessions, marks, month)
    ensures Total(students, CourseCells(s)) == s.course.attended == Total(anchors, s.months)
  {
    StudentTotals(CourseCells(s), students, SessionsDuring(sessions, month, anchors), marks);
    MonthTotals(s.months, anchors, Students(students), sessions, marks, month);
  }

  lemma RowTotals(s: Summary, students: seq<int>, anchors: seq<int>, sessions: set<Session>,
                  marks: set<Mark>, month: int -> int, u: int)
    requires UniqueIds(sessions) && Distinct(anchors) && u in students
    requires Accounts(s, students, anchors, sessions, marks, month)
    ensures s.students[u].course.attended == Total(anchors, s.students[u].byMonth)
  {
    var cells := s.students[u].byMonth;
    forall a <- anchors
      ensures a in cells && cells[a].attended == AttendedBy(marks, {u}, SessionsIn(sessions, month, a))
    {
    }
    MonthTotals(cells, anchors, {u}, sessions, marks, month);
  }

  lemma RowIsBounded(s: Summary, students: seq<int>, anchors: seq<int>, sessions: set<Session>,
                     marks: set<Mark>, month: int -> int, u: int)
    requires UniqueMarks(marks) && u in students && Accounts(s, students, anchors, sessions, marks, month)
    ensures s.students[u].course.attended <= s.students[u].course.total
  {
    AttendedAtMostScheduled(marks, {u}, SessionsDuring(sessions, month, anchors));
  }

  lemma ColumnTotals(s: Summary, students: seq<int>, anchors: seq<int>, sessions: set<Session>,
                     marks: set<Mark>, month: int -> int, a: int)
    requires UniqueMarks(marks) && Distinct(students) && a in anchors
    requires Accounts(s, students, anchors, sessions, marks, month)
    ensures s.months[a].attended == Total(students, MonthCells(s, a))
  {
    StudentTotals(MonthCells(s, a), students, SessionsIn(sessions, month, a), marks);
  }

  lemma CourseIsBounded(s: Summary, students: seq<int>, anchors: seq<int>, sessions: set<Session>,
                        marks: set<Mark>, month: int -> int)
    requires UniqueMarks(marks) && Distinct(students) && Accounts(s, students, anchors, sessions, marks, month)
    ensures s.course.attended <= s.course.total
  {
    DistinctSize(students);
    AttendedAtMostScheduled(marks, Students(students), SessionsDuring(sessions, month, anchors));
  }

  lemma MonthIsBounded(s: Summary, students: seq<int>, anchors: seq<int>, sessions: set<Session>,
                       marks: set<Mark>, month: int -> int, a: int)
    requires UniqueMarks(marks) && Distinct(students) && Accounts(s, students, anchors, sessions, marks, month)
    requires a in anchors
    ensures s.months[a].attended <= s.months[a].total
  {
    DistinctSize(students);
    AttendedAtMostScheduled(marks, Students(students), SessionsIn(sessions, month, a));
  }

  lemma CellIsBounded(s: Summary, students: seq<int>, anchors: seq<int>, sessions: set<Session>,
                      marks: set<Mark>, month: int -> int, u: int, a: int)
    requires UniqueMarks(marks) && Accounts(s, students, anchors, sessions, marks, month)
    requires u in students && a in anchors
    ensures s.students[u].byMonth[a].attended <= s.students[u].byMonth[a].total
  {
    AttendedAtMostScheduled(marks, {u}, SessionsIn(sessions, month, a));
  }

  /** Rows and months are the sums of their cells, the grand total is the sum of the student
      totals and of the class totals by month, and no number of attended slots, in a cell, a row,
      a month or over all, exceeds its number of scheduled ones. */
  lemma BothOrdersAgree(s: Summary, students: seq<int>, anchors: seq<int>, sessions: set<Session>,
                        marks: set<Mark>, month: int -> int, u: int, a: int)
    requires UniqueIds(sessions) && UniqueMarks(marks) && Distinct(students) && Distinct(anchors)
    requires Accounts(s, students, anchors, sessions, marks, month)
    ensures Total(students, CourseCells(s)) == s.course.attended == Total(anchors, s.months)
    ensures s.course.attended <= s.course.total
    ensures u in students ==> s.students[u].course.attended == Total(anchors, s.students[u].byMonth)
    ensures u in students ==> s.students[u].course.attended <= s.students[u].course.total
    ensures a in anchors ==> s.months[a].attended == Total(students, MonthCells(s, a))
    ensures a in anchors ==> s.months[a].attended <= s.months[a].total
    ensures u in students && a in anchors ==> s.students[u].byMonth[a].attended <= s.students[u].byMonth[a].total
  {
    CourseTotals(s, students, anchors, sessions, marks, month);
    CourseIsBounded(s, students, anchors, sessions, marks, month);
    if u in students {
      RowTotals(s, students, anchors, sessions, marks, month, u);
      RowIsBounded(s, students, anchors, sessions, marks, month, u);
    }
    if a in anchors {
      ColumnTotals(s, students, anchors, sessions, marks, month, a);
      MonthIsBounded(s, students, anchors, sessions, marks, month, a);
    }
    if u in students && a in anchors {
      CellIsBounded(s, students, anchors, sessions, marks, month, u, a);
    }
  }

  // ---------------------------------------------------------------------------------------
  // The monthly matrix

  datatype MatrixRow = MatrixRow(student: int, total: nat, statuses: seq<Status>)

  ghost function AttendedPositions(statuses: seq<Status>): set<int> {
    set i | 0 <= i < |statuses| && Attended(statuses[i])
  }

  method CountAttendedStatuses(statuses: seq<Status>) returns (n: nat)
    ensures n == |AttendedPositions(statuses)|
  {
    n := 0;
    assert AttendedPositions(statuses[..0]) == {};
    for i := 0 to |statuses|
      invariant n == |AttendedPositions(statuses[..i])|
    {
      assert AttendedPositions(statuses[..i + 1]) ==
             AttendedPositions(statuses[..i]) + if Attended(statuses[i]) then {i} else {};
      if Attended(statuses[i]) {
        n := n + 1;
      }
    }
    assert statuses[..|statuses|] == statuses;
  }

  /** None when the month has no session or the course no student. */
  method BuildMatrix(students: seq<int>, events: seq<Session>, lookup: map<(int, int), Status>, ghost marks: set<Mark>)
    returns (table: Option<seq<MatrixRow>>)
    requires UniqueMarks(marks) && GodView.IsLookup(lookup, marks)
    ensures table.None? <==> events == [] || students == []
    ensures table.Some? ==>
              && |table.value| == |students|
              && forall i | 0 <= i < |students| ::
                   && table.value[i].student == students[i]
                   && |table.value[i].statuses| == |events|
                   && (forall j | 0 <= j < |events| ::
                         table.value[i].statuses[j] == StatusOf(marks, students[i], events[j].id))
                   && table.value[i].total == |AttendedPositions(table.value[i].statuses)|
  {
    if events == [] || students == [] {
      return None;
    }
    var rows: seq<MatrixRow> := [];
    for i := 0 to |students|
      invariant |rows| == i
      invariant forall k | 0 <= k < i ::
                  && rows[k].student == students[k]
                  && |rows[k].statuses| == |events|
                  && (forall j | 0 <= j < |events| :: rows[k].statuses[j] == StatusOf(marks, students[k], events[j].id))
                  && rows[k].total == |AttendedPositions(rows[k].statuses)|
    {
      var statuses: seq<Status> := [];
      for j := 0 to |events|
        invariant |statuses| == j
        invariant forall k | 0 <= k < j :: statuses[k] == StatusOf(marks, students[i], events[k].id)
      {
        var key := (students[i], events[j].id);
        if key in lookup {
          ghost var m :| HasRow(marks, m, key.0, key.1);
          StatusOfRow(marks, m);
        }
        statuses := statuses + [if key in lookup then lookup[key] else Unregistered];
      }
      var total := CountAttendedStatuses(statuses);
      rows := rows + [MatrixRow(students[i], total, statuses)];
    }
    table := Some(rows);
  }

  /** For every month, a student's cell in the summary is the total of the student's matrix row. */
  lemma CellIsMatrixTotal(s: Summary, students: seq<int>, anchors: seq<int>, sessions: set<Session>, marks: set<Mark>,
                          month: int -> int, u: int, a: int, events: seq<Session>, row: MatrixRow)
    requires UniqueIds(sessions) && UniqueMarks(marks)
    requires Accounts(s, students, anchors, sessions, marks, month)
    requires u in students && a in anchors
    requires GodView.Lists(events, set e <- sessions | month(e.date) == a)
    requires |row.statuses| == |events| && row.total == |AttendedPositions(row.statuses)|
    requires forall j | 0 <= j < |events| :: row.statuses[j] == StatusOf(marks, u, events[j].id)
    ensures s.students[u].byMonth[a].attended == row.total
    ensures s.students[u].byMonth[a].total == |events|
  {
    var own := set e <- sessions | month(e.date) == a;
    assert Ids(own) == SessionsIn(sessions, month, a);
    RowTotalIsCount(marks, u, events, own, row);
    DistinctSize(events);
    IdsSize(own);
  }

  /** A matrix row counts the attended marks of the listed sessions. */
  lemma RowTotalIsCount(marks: set<Mark>, u: int, events: seq<Session>, own: set<Session>, row: MatrixRow)
    requires UniqueIds(own) && UniqueMarks(marks) && GodView.Lists(events, own)
    requires |row.statuses| == |events| && row.total == |AttendedPositions(row.statuses)|
    requires forall j | 0 <= j < |events| :: row.statuses[j] == StatusOf(marks, u, events[j].id)
    ensures row.total == AttendedBy(marks, {u}, Ids(own))
  {
    GodView.RowsArePositions(marks, u, events, own, Ids(own), InAttended);
    assert forall e :: e in events <==> e in (set x | x in events);
    assert GodView.Positions(GodView.TimelineOf(marks, u, events), Ids(own), InAttended) ==
           AttendedPositions(row.statuses);
  }
}
