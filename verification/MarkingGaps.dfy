/**
 Course marking gaps: how many slots of a course (a session for a student of its roster) are
 present, late, absent or unregistered. The overview aggregates mark rows by course and derives
 the unregistered slots by subtraction; the detail lists slots one by one.
 */
module MarkingGaps {
  import opened Wrappers
  import opened AttendanceTables
  import opened GodView

  /** The tables within the scope of a request. */
  datatype Scope = Scope(
    courses: set<int>,
    students: set<(int, int)>, // open student assignments: user and course
    sessions: set<Session>,
    marks: set<Mark>)

  ghost predicate Valid(sc: Scope) {
    && UniqueIds(sc.sessions) && UniqueMarks(sc.marks)
    && (forall e <- sc.sessions :: e.course in sc.courses)
    && (forall p <- sc.students :: p.1 in sc.courses)
  }

  function CourseIds(sc: Scope, course: int): set<int> {
    set e <- sc.sessions | e.course == course :: e.id
  }

  function Roster(sc: Scope, course: int): set<int> {
    set p <- sc.students | p.1 == course :: p.0
  }

  /** The students of all courses in scope; the overview reads the marks of all of them. */
  function Pooled(sc: Scope): set<int> { set p <- sc.students :: p.0 }

  // ---------------------------------------------------------------------------------------
  // The overview

  datatype Counts = Counts(present: int, late: int, absent: int)

  const NO_COUNTS := Counts(0, 0, 0)

  /** One row of the query grouped by course and status. */
  datatype Group = Group(course: int, status: Status, n: nat)

  ghost function GroupMembers(sc: Scope, course: int, st: Status): set<Mark> {
    set m <- sc.marks | !m.deleted && m.user in Pooled(sc) && m.event in CourseIds(sc, course) && m.status == st
  }

  /** What the grouped query returns: each nonempty group once, with its size. */
  ghost predicate Grouped(sc: Scope, groups: seq<Group>) {
    && (forall i, j | 0 <= i < j < |groups| ::
          groups[i].course != groups[j].course || groups[i].status != groups[j].status)
    && (forall g <- groups :: g.course in sc.courses && g.n == |GroupMembers(sc, g.course, g.status)|)
    && (forall c <- sc.courses, st: Status | GroupMembers(sc, c, st) != {} ::
          exists g :: g in groups && g.course == c && g.status == st)
  }

  function CountIn(c: Counts, b: Bucket): int
    requires b in {InPresent, InLate, InAbsent}
  {
    match b
    case InPresent => c.present
    case InLate => c.late
    case InAbsent => c.absent
  }

  ghost function Tally(groups: seq<Group>, course: int, b: Bucket): int {
    if groups == [] then 0
    else
      var g := groups[|groups| - 1];
      Tally(groups[..|groups| - 1], course, b) + if g.course == course && In(b, g.status) then g.n else 0
  }

  /** Adds the groups up by course, absent with leave counting as absent. */
  method AddUp(groups: seq<Group>) returns (counts: map<int, Counts>)
    ensures forall c <- counts, b <- {InPresent, InLate, InAbsent} :: CountIn(counts[c], b) == Tally(groups, c, b)
    ensures forall c, b | c !in counts && b in {InPresent, InLate, InAbsent} :: Tally(groups, c, b) == 0
  {
    counts := map[];
    assert groups[..|groups|] == groups;
    for i := 0 to |groups|
      invariant forall c <- counts, b <- {InPresent, InLate, InAbsent} ::
                  CountIn(counts[c], b) == Tally(groups[..i], c, b)
      invariant forall c, b | c !in counts && b in {InPresent, InLate, InAbsent} :: Tally(groups[..i], c, b) == 0
    {
      assert groups[..i + 1][..i] == groups[..i];
      var g := groups[i];
      if g.status != Unregistered {
        var old' := if g.course in counts then counts[g.course] else NO_COUNTS;
        var new' := match g.status
          case Present => old'.(present := old'.present + g.n)
          case Late => old'.(late := old'.late + g.n)
          case _ => old'.(absent := old'.absent + g.n);
        counts := counts[g.course := new'];
      }
    }
  }

  lemma {:induction false} TallyOfOthers(groups: seq<Group>, course: int, b: Bucket)
    requires forall g <- groups :: g.course == course ==> !In(b, g.status)
    ensures Tally(groups, course, b) == 0
  {
    if groups != [] {
      TallyOfOthers(groups[..|groups| - 1], course, b);
    }
  }

  /** Rows already accounted for by the first groups of the list. */
  ghost function Covered(sc: Scope, groups: seq<Group>, course: int, b: Bucket): set<Mark> {
    set m <- Rows(sc.marks, Pooled(sc), CourseIds(sc, course), b) |
          exists g :: g in groups && g.course == course && g.status == m.status
  }

  /** One more group covers its members and nothing that was covered before. */
  lemma CoveredStep(sc: Scope, init: seq<Group>, g: Group, course: int, b: Bucket)
    requires forall h <- init :: h.course != g.course || h.status != g.status
    ensures var before := Covered(sc, init, course, b);
            var members := GroupMembers(sc, course, g.status);
            if g.course == course && In(b, g.status)
            then before !! members && Covered(sc, init + [g], course, b) == before + members
            else Covered(sc, init + [g], course, b) == before
  {
    var before := Covered(sc, init, course, b);
    var after := Covered(sc, init + [g], course, b);
    forall m <- Rows(sc.marks, Pooled(sc), CourseIds(sc, course), b)
      ensures m in after <==> m in before || (g.course == course && m.status == g.status)
      ensures m in before && g.course == course ==> m.status != g.status
    {
      assert forall h :: h in init + [g] <==> h in init || h == g;
    }
  }

  lemma {:induction false} TallyIsCovered(sc: Scope, groups: seq<Group>, course: int, b: Bucket)
    requires forall i, j | 0 <= i < j < |groups| ::
               groups[i].course != groups[j].course || groups[i].status != groups[j].status
    requires forall g <- groups :: g.n == |GroupMembers(sc, g.course, g.status)|
    ensures Tally(groups, course, b) == |Covered(sc, groups, course, b)|
  {
    if groups != [] {
      var init, g := groups[..|groups| - 1], groups[|groups| - 1];
      TallyIsCovered(sc, init, course, b);
      assert groups == init + [g];
      CoveredStep(sc, init, g, course, b);
    } else {
      assert Covered(sc, groups, course, b) == {};
    }
  }

  /** So the overview counts, for each bucket, the live rows of pooled students at the course. */
  lemma TallyIsRowCount(sc: Scope, groups: seq<Group>, course: int, b: Bucket)
    requires Grouped(sc, groups) && course in sc.courses
    ensures Tally(groups, course, b) == |Rows(sc.marks, Pooled(sc), CourseIds(sc, course), b)|
  {
    TallyIsCovered(sc, groups, course, b);
    forall m <- Rows(sc.marks, Pooled(sc), CourseIds(sc, course), b)
      ensures m in Covered(sc, groups, course, b)
    {
      assert m in GroupMembers(sc, course, m.status);
    }
    assert Covered(sc, groups, course, b) == Rows(sc.marks, Pooled(sc), CourseIds(sc, course), b);
  }

  datatype GapRow = GapRow(scheduled: int, counts: Counts, unregistered: int)

  ghost function Overview(sc: Scope, course: int): GapRow {
    var present := |Rows(sc.marks, Pooled(sc), CourseIds(sc, course), InPresent)|;
    var late := |Rows(sc.marks, Pooled(sc), CourseIds(sc, course), InLate)|;
    var absent := |Rows(sc.marks, Pooled(sc), CourseIds(sc, course), InAbsent)|;
    var scheduled := |CourseIds(sc, course)| * |Roster(sc, course)|;
    GapRow(scheduled, Counts(present, late, absent), scheduled - present - late - absent)
  }

  method BuildGapRow(ghost sc: Scope, course: int, events: seq<Session>, rosterSize: nat, groups: seq<Group>)
    returns (row: GapRow)
    requires Valid(sc) && course in sc.courses && Grouped(sc, groups)
    requires Lists(events, set e <- sc.sessions | e.course == course) && rosterSize == |Roster(sc, course)|
    ensures row == Overview(sc, course)
  {
    var all := AddUp(groups);
    var counts := if course in all then all[course] else NO_COUNTS;
    var scheduled := |events| * rosterSize;
    row := GapRow(scheduled, counts, scheduled - counts.present - counts.late - counts.absent);
    ghost var own := set e <- sc.sessions | e.course == course;
    DistinctSize(events);
    IdsSize(own);
    assert CourseIds(sc, course) == Ids(own);
    TallyIsRowCount(sc, groups, course, InPresent);
    TallyIsRowCount(sc, groups, course, InLate);
    TallyIsRowCount(sc, groups, course, InAbsent);
    assert CountIn(counts, InPresent) == Tally(groups, course, InPresent);
    assert CountIn(counts, InLate) == Tally(groups, course, InLate);
    assert CountIn(counts, InAbsent) == Tally(groups, course, InAbsent);
  }

  // ---------------------------------------------------------------------------------------
  // The detail

  datatype DetailRow = DetailRow(student: int, event: int, status: Status, streak: nat, lastAttended: Option<int>)

  /** ALL, or one problem status. */
  predicate Matches(problem: Option<Bucket>, st: Status) { problem.None? || In(problem.value, st) }

  function Keys(rows: seq<DetailRow>): set<(int, int)> { set r <- rows :: (r.student, r.event) }

  /** The slots of one session that match the problem. */
  ghost function Matching(marks: set<Mark>, students: seq<int>, event: int, problem: Option<Bucket>): set<(int, int)> {
    set u | u in students && Matches(problem, StatusOf(marks, u, event)) :: (u, event)
  }

  lemma MatchingOneMore(marks: set<Mark>, roster: seq<int>, j: nat, event: int, problem: Option<Bucket>)
    requires j < |roster|
    ensures Matching(marks, roster[..j + 1], event, problem) ==
            Matching(marks, roster[..j], event, problem)
            + if Matches(problem, StatusOf(marks, roster[j], event)) then {(roster[j], event)} else {}
  {
    assert roster[..j + 1] == roster[..j] + [roster[j]];
  }

  ghost predicate Sound(rows: seq<DetailRow>, marks: set<Mark>, streakEvents: seq<Session>) {
    && (forall i, j | 0 <= i < j < |rows| :: (rows[i].student, rows[i].event) != (rows[j].student, rows[j].event))
    && (forall r <- rows ::
          && r.status == StatusOf(marks, r.student, r.event)
          && r.streak == FirstAttended(TimelineOf(marks, r.student, streakEvents))
          && r.lastAttended == LastAttended(TimelineOf(marks, r.student, streakEvents)))
  }

  ghost predicate Caches(cache: map<int, seq<Entry>>, marks: set<Mark>, streakEvents: seq<Session>) {
    forall u <- cache :: cache[u] == TimelineOf(marks, u, streakEvents)
  }

  /** The rows of one session; a student's streak is computed the first time it is needed. */
  method DetailOfSession(ghost marks: set<Mark>, lookup: map<(int, int), Status>, event: int, roster: seq<int>,
                         streakEvents: seq<Session>, problem: Option<Bucket>, earlier: seq<DetailRow>,
                         known: map<int, seq<Entry>>)
    returns (rows: seq<DetailRow>, cache: map<int, seq<Entry>>)
    requires UniqueMarks(marks) && IsLookup(lookup, marks)
    requires forall i, j | 0 <= i < j < |roster| :: roster[i] != roster[j]
    requires Sound(earlier, marks, streakEvents) && Caches(known, marks, streakEvents)
    requires forall u: int :: (u, event) !in Keys(earlier)
    ensures Sound(rows, marks, streakEvents) && Caches(cache, marks, streakEvents)
    ensures Keys(rows) == Keys(earlier) + Matching(marks, roster, event, problem)
  {
    rows, cache := earlier, known;
    assert Matching(marks, roster[..0], event, problem) == {};
    for j := 0 to |roster|
      invariant Sound(rows, marks, streakEvents) && Caches(cache, marks, streakEvents)
      invariant Keys(rows) == Keys(earlier) + Matching(marks, roster[..j], event, problem)
    {
      var user := roster[j];
      var status := if (user, event) in lookup then lookup[(user, event)] else Unregistered;
      LookupIsStatus(marks, lookup, user, event);
      MatchingOneMore(marks, roster, j, event, problem);
      if Matches(problem, status) {
        if user !in cache {
          var timeline := BuildTimeline(user, streakEvents, lookup, marks);
          cache := cache[user := timeline];
        }
        var streak, last, _ := ComputeStreakAndLast(cache[user]);
        assert (user, event) !in Keys(rows);
        ghost var before := rows;
        rows := rows + [DetailRow(user, event, status, streak, last)];
        AddKey(before, rows[|before|]);
      }
    }
    assert roster[..|roster|] == roster;
  }

  lemma AddKey(rows: seq<DetailRow>, row: DetailRow)
    ensures Keys(rows + [row]) == Keys(rows) + {(row.student, row.event)}
  {
    assert forall r :: r in rows + [row] <==> r in rows || r == row;
  }

  /** Walks all slots of the course; streaks come from a longer list of sessions and are computed
      once per student. */
  method BuildDetail(ghost marks: set<Mark>, lookup: map<(int, int), Status>, events: seq<Session>,
                     roster: seq<int>, streakEvents: seq<Session>, problem: Option<Bucket>)
    returns (rows: seq<DetailRow>)
    requires UniqueMarks(marks) && IsLookup(lookup, marks)
    requires forall i, j | 0 <= i < j < |events| :: events[i].id != events[j].id
    requires forall i, j | 0 <= i < j < |roster| :: roster[i] != roster[j]
    ensures forall i, j | 0 <= i < j < |rows| ::
              (rows[i].student, rows[i].event) != (rows[j].student, rows[j].event)
    ensures forall u, e :: (u, e) in Keys(rows) <==>
              u in roster && (exists s <- events :: s.id == e) && Matches(problem, StatusOf(marks, u, e))
    ensures forall r <- rows ::
              && r.status == StatusOf(marks, r.student, r.event)
              && r.streak == FirstAttended(TimelineOf(marks, r.student, streakEvents))
              && r.lastAttended == LastAttended(TimelineOf(marks, r.student, streakEvents))
  {
    rows := [];
    var cache: map<int, seq<Entry>> := map[];
    for i := 0 to |events|
      invariant Sound(rows, marks, streakEvents) && Caches(cache, marks, streakEvents)
      invariant forall u, e :: (u, e) in Keys(rows) <==>
                  u in roster && (exists s <- events[..i] :: s.id == e) && Matches(problem, StatusOf(marks, u, e))
    {
      assert forall s <- events[..i] :: s.id != events[i].id;
      rows, cache := DetailOfSession(marks, lookup, events[i].id, roster, streakEvents, problem, rows, cache);
      assert events[..i + 1] == events[..i] + [events[i]];
    }
    assert events[..|events|] == events;
  }

  lemma LookupIsStatus(marks: set<Mark>, lookup: map<(int, int), Status>, user: int, event: int)
    requires UniqueMarks(marks) && IsLookup(lookup, marks)
    ensures StatusOf(marks, user, event) ==
            if (user, event) in lookup then lookup[(user, event)] else Unregistered
  {
    if (user, event) in lookup {
      var m :| HasRow(marks, m, user, event);
      StatusOfRow(marks, m);
    }
  }

  // ---------------------------------------------------------------------------------------
  // Overview against detail

  /** Registered live marks at the course of students who are in scope but not on its roster. */
  ghost function Strays(sc: Scope, course: int): set<Mark> {
    set m <- sc.marks | !m.deleted && m.status != Unregistered && m.event in CourseIds(sc, course) &&
                        m.user in Pooled(sc) && m.user !in Roster(sc, course)
  }

  ghost function MarksIn(ms: set<Mark>, b: Bucket): set<Mark> { set m <- ms | In(b, m.status) }

  ghost function StraysIn(sc: Scope, course: int, b: Bucket): nat { |MarksIn(Strays(sc, course), b)| }

  ghost function Slots(sc: Scope, course: int, b: Bucket): nat {
    |Cells(sc.marks, Roster(sc, course), CourseIds(sc, course), b)|
  }

  /** The overview shows, for every status, as many slots as the detail lists. */
  ghost predicate OverviewAgrees(sc: Scope, course: int) {
    var row := Overview(sc, course);
    && row.counts.present == Slots(sc, course, InPresent)
    && row.counts.late == Slots(sc, course, InLate)
    && row.counts.absent == Slots(sc, course, InAbsent)
    && row.unregistered == Slots(sc, course, InUnregistered)
  }

  lemma PooledRowsSplit(sc: Scope, course: int, b: Bucket)
    requires Valid(sc) && !In(b, Unregistered)
    ensures var own := Rows(sc.marks, Roster(sc, course), CourseIds(sc, course), b);
            var strays := MarksIn(Strays(sc, course), b);
            Rows(sc.marks, Pooled(sc), CourseIds(sc, course), b) == own + strays && own !! strays
  {
    assert forall p <- sc.students :: p.1 == course ==> p.0 in Pooled(sc);
  }

  /** The overview exceeds the detail by the strays in the bucket. */
  lemma OverviewExcess(sc: Scope, course: int, b: Bucket)
    requires Valid(sc) && !In(b, Unregistered)
    ensures |Rows(sc.marks, Pooled(sc), CourseIds(sc, course), b)|
            == Slots(sc, course, b) + StraysIn(sc, course, b)
  {
    RowsAreCells(sc.marks, Roster(sc, course), CourseIds(sc, course), b);
    PooledRowsSplit(sc, course, b);
  }

  lemma RegisteredSplit(ms: set<Mark>)
    requires forall m <- ms :: m.status != Unregistered
    ensures |ms| == |MarksIn(ms, InPresent)| + |MarksIn(ms, InLate)| + |MarksIn(ms, InAbsent)|
  {
    var p, l, a := MarksIn(ms, InPresent), MarksIn(ms, InLate), MarksIn(ms, InAbsent);
    assert p !! l && (p + l) !! a;
    assert ms == p + l + a;
  }

  /** The two views agree on every status exactly when no student from outside the roster has a
      registered mark at the course. One such mark already puts the unregistered slots wrong. */
  lemma OverviewAgreesIffNoStrays(sc: Scope, course: int)
    requires Valid(sc)
    ensures OverviewAgrees(sc, course) <==> Strays(sc, course) == {}
    ensures Overview(sc, course).unregistered == Slots(sc, course, InUnregistered) - |Strays(sc, course)|
  {
    OverviewExcess(sc, course, InPresent);
    OverviewExcess(sc, course, InLate);
    OverviewExcess(sc, course, InAbsent);
    BucketsPartition(sc.marks, Roster(sc, course), CourseIds(sc, course));
    RegisteredSplit(Strays(sc, course));
  }

  /** A student of course 1 who is marked at a session of course 2: course 2, with a roster of one
      unmarked student, shows no unregistered slot although the detail lists one. */
  lemma StrayMarkHidesAGap()
    ensures var sc := Scope({1, 2}, {(10, 1), (20, 2)}, {Session(5, 2, 0, 0)}, {Mark(10, 5, Present, false)});
            Valid(sc) && Overview(sc, 2).unregistered == 0 && Slots(sc, 2, InUnregistered) == 1
  {
    var sc := Scope({1, 2}, {(10, 1), (20, 2)}, {Session(5, 2, 0, 0)}, {Mark(10, 5, Present, false)});
    assert Session(5, 2, 0, 0) in sc.sessions && (10, 1) in sc.students && (20, 2) in sc.students;
    assert CourseIds(sc, 2) == {5} && Roster(sc, 2) == {20} && Pooled(sc) == {10, 20};
    assert Strays(sc, 2) == {Mark(10, 5, Present, false)};
    assert Cells(sc.marks, {20}, {5}, InUnregistered) == {(20, 5)};
    OverviewAgreesIffNoStrays(sc, 2);
  }

  lemma ListedIds(sc: Scope, course: int, events: seq<Session>)
    requires Lists(events, set e <- sc.sessions | e.course == course)
    ensures forall e: int :: (exists s <- events :: s.id == e) <==> e in CourseIds(sc, course)
  {
    var own := set x <- sc.sessions | x.course == course;
    assert forall s :: s in events <==> s in (set x | x in events);
    assert CourseIds(sc, course) == Ids(own);
  }

  /** A detail listing for one status has as many rows as the course has slots of that status. */
  lemma DetailSize(sc: Scope, course: int, events: seq<Session>, rows: seq<DetailRow>, b: Bucket)
    requires Lists(events, set e <- sc.sessions | e.course == course)
    requires forall i, j | 0 <= i < j < |rows| ::
               (rows[i].student, rows[i].event) != (rows[j].student, rows[j].event)
    requires forall u, e :: (u, e) in Keys(rows) <==>
               u in Roster(sc, course) && (exists s <- events :: s.id == e) && In(b, StatusOf(sc.marks, u, e))
    ensures |rows| == Slots(sc, course, b)
  {
    var keys := seq(|rows|, i requires 0 <= i < |rows| => (rows[i].student, rows[i].event));
    DistinctSize(keys);
    assert forall i | 0 <= i < |rows| :: keys[i] in keys && rows[i] in rows;
    assert (set k | k in keys) == Keys(rows);
    ListedIds(sc, course, events);
    assert Keys(rows) == Cells(sc.marks, Roster(sc, course), CourseIds(sc, course), b);
  }

  // ---------------------------------------------------------------------------------------
  // The dominant problem

  /** The status with the most slots; ties go to unregistered, then absent, then late. */
  function DominantProblem(row: GapRow): (b: Bucket)
    ensures b in {InUnregistered, InAbsent, InLate, InPresent}
    ensures var n := (x: Bucket) =>
              if x == InUnregistered then row.unregistered else if x == InAbsent then row.counts.absent
              else if x == InLate then row.counts.late else row.counts.present;
            && n(InUnregistered) <= n(b) && n(InAbsent) <= n(b) && n(InLate) <= n(b) && n(InPresent) <= n(b)
            && (b != InUnregistered ==> n(InUnregistered) < n(b))
            && (b == InLate || b == InPresent ==> n(InAbsent) < n(b))
            && (b == InPresent ==> n(InLate) < n(b))
  {
    var most := [row.unregistered, row.counts.absent, row.counts.late, row.counts.present];
    var x := if most[0] >= most[1] then most[0] else most[1];
    var y := if most[2] >= most[3] then most[2] else most[3];
    var top := if x >= y then x else y;
    if most[0] == top then InUnregistered
    else if most[1] == top then InAbsent
    else if most[2] == top then InLate
    else InPresent
  }
}
