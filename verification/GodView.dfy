/**
 The attendance god view. One query ranks a course's sessions once and derives each student's
 streak, last attendance and unregistered count from sparse marks; the other reports walk the
 sessions newest first. Both are defined here, and shown to agree.
 */
module GodView {
  import opened Wrappers
  import opened AttendanceTables

  const DAY := 1440

  function UtcDay(date: int): int { date / DAY }

  // ---------------------------------------------------------------------------------------
  // The query: one row of `pair_rows` for a student of a course

  /** ORDER BY date DESC, time_from DESC, id DESC */
  predicate Newer(f: Session, e: Session) {
    || f.date > e.date
    || (f.date == e.date && f.timeFrom > e.timeFrom)
    || (f.date == e.date && f.timeFrom == e.timeFrom && f.id > e.id)
  }

  /** ROW_NUMBER() in that order */
  ghost function Rank(sessions: set<Session>, e: Session): nat {
    |set f <- sessions | Newer(f, e)| + 1
  }

  ghost function SessionOf(sessions: set<Session>, id: int): (e: Session)
    requires id in Ids(sessions)
    ensures e in sessions && e.id == id
  {
    var e :| e in sessions && e.id == id; e
  }

  ghost function Least(s: set<int>): (m: int)
    requires s != {}
    ensures m in s && forall x <- s :: m <= x
  {
    var x := Pick(s);
    if s == {x} then x
    else
      var m := Least(s - {x});
      assert forall y <- s :: y == x || y in s - {x};
      if x < m then x else m
  }

  /** The greatest status in the order of the stored strings. */
  ghost function MaxStatus(s: set<Status>): Option<Status> {
    if Unregistered in s then Some(Unregistered)
    else if Present in s then Some(Present)
    else if Late in s then Some(Late)
    else if AbsentWithLeave in s then Some(AbsentWithLeave)
    else if Absent in s then Some(Absent)
    else None
  }

  ghost function AttendedRanks(sessions: set<Session>, marks: set<Mark>, user: int): set<int> {
    set m <- Rows(marks, {user}, Ids(sessions), InAttended) :: Rank(sessions, SessionOf(sessions, m.event))
  }

  /** MIN(rn) FILTER (attended) */
  ghost function FirstAttendedRank(sessions: set<Session>, marks: set<Mark>, user: int): Option<int> {
    var ranks := AttendedRanks(sessions, marks, user);
    if ranks == {} then None else Some(Least(ranks))
  }

  /** MAX(attendance_status) FILTER (rn = 1) */
  ghost function LatestStatus(sessions: set<Session>, marks: set<Mark>, user: int): Option<Status> {
    MaxStatus(set m <- marks | !m.deleted && m.user == user && m.event in Ids(sessions) &&
                               Rank(sessions, SessionOf(sessions, m.event)) == 1 :: m.status)
  }

  ghost function InWindow(sessions: set<Session>, weekAgo: int, today: int): set<Session> {
    set e <- sessions | weekAgo <= UtcDay(e.date) <= today
  }

  /** Both ends of the window are whole UTC days of 1440 minutes. */
  lemma WindowIsWholeDays(sessions: set<Session>, weekAgo: int, today: int, e: Session)
    ensures e in InWindow(sessions, weekAgo, today) <==>
            e in sessions && weekAgo * 1440 <= e.date < (today + 1) * 1440
    ensures UtcDay(e.date) * 1440 <= e.date < (UtcDay(e.date) + 1) * 1440
  {
  }

  datatype PairRow = PairRow(
    scheduled: int, present: int, late: int, absent: int, unregistered: int, absentLast7: int,
    streak: int, lastStatus: Status, lastAttended: Option<int>)

  ghost function QueryRow(sessions: set<Session>, marks: set<Mark>, user: int, weekAgo: int, today: int): PairRow {
    var present := |Rows(marks, {user}, Ids(sessions), InPresent)|;
    var late := |Rows(marks, {user}, Ids(sessions), InLate)|;
    var absent := |Rows(marks, {user}, Ids(sessions), InAbsent)|;
    var recent := InWindow(sessions, weekAgo, today);
    var first := FirstAttendedRank(sessions, marks, user);
    var latest := LatestStatus(sessions, marks, user);
    PairRow(
      |sessions|, present, late, absent, |sessions| - present - late - absent,
      |recent| - |Rows(marks, {user}, Ids(recent), InAttended)|,
      if first.Some? then first.value - 1 else |sessions|,
      if latest.Some? then latest.value else Unregistered,
      if first.None? then None
      else if e :| e in sessions && Rank(sessions, e) == first.value then Some(UtcDay(e.date))
      else None)
  }

  // ---------------------------------------------------------------------------------------
  // The walk

  datatype Entry = Entry(id: int, date: int, status: Status)

  ghost function TimelineOf(marks: set<Mark>, user: int, newestFirst: seq<Session>): seq<Entry> {
    seq(|newestFirst|, i requires 0 <= i < |newestFirst| =>
      Entry(newestFirst[i].id, newestFirst[i].date, StatusOf(marks, user, newestFirst[i].id)))
  }

  /** Position of the first attended entry, or the length of the timeline. */
  function FirstAttended(t: seq<Entry>): (k: nat)
    ensures k <= |t|
    ensures forall i | 0 <= i < k :: !Attended(t[i].status)
    ensures k < |t| ==> Attended(t[k].status)
  {
    if t == [] || Attended(t[0].status) then 0 else 1 + FirstAttended(t[1..])
  }

  /** The day of the first attended entry. */
  function LastAttended(t: seq<Entry>): Option<int> {
    if FirstAttended(t) < |t| then Some(UtcDay(t[FirstAttended(t)].date)) else None
  }

  /** The dictionary of live rows by student and session. */
  ghost predicate IsLookup(lookup: map<(int, int), Status>, marks: set<Mark>) {
    && (forall m <- marks | !m.deleted :: (m.user, m.event) in lookup && lookup[(m.user, m.event)] == m.status)
    && (forall k <- lookup :: exists m :: HasRow(marks, m, k.0, k.1))
  }

  method BuildTimeline(user: int, courseEvents: seq<Session>, lookup: map<(int, int), Status>,
                       ghost marks: set<Mark>) returns (timeline: seq<Entry>)
    requires UniqueMarks(marks) && IsLookup(lookup, marks)
    ensures timeline == TimelineOf(marks, user, courseEvents)
  {
    timeline := [];
    for i := 0 to |courseEvents|
      invariant |timeline| == i
      invariant forall j | 0 <= j < i :: timeline[j] == TimelineOf(marks, user, courseEvents)[j]
    {
      var ev := courseEvents[i];
      var status := if (user, ev.id) in lookup then lookup[(user, ev.id)] else Unregistered;
      if (user, ev.id) in lookup {
        ghost var m :| HasRow(marks, m, user, ev.id);
        StatusOfRow(marks, m);
      }
      timeline := timeline + [Entry(ev.id, ev.date, status)];
    }
  }

  method ComputeStreakAndLast(t: seq<Entry>)
    returns (streak: nat, lastAttended: Option<int>, lastStatus: Option<Status>)
    ensures streak == FirstAttended(t)
    ensures lastAttended == LastAttended(t)
    ensures lastStatus == if t == [] then None else Some(t[0].status)
  {
    streak, lastAttended, lastStatus := 0, None, None;
    if t != [] {
      lastStatus := Some(t[0].status);
    }
    var i := 0;
    while i < |t|
      invariant 0 <= i <= |t| && streak == i && lastAttended.None?
      invariant forall j | 0 <= j < i :: !Attended(t[j].status)
    {
      if Attended(t[i].status) {
        if lastAttended.None? {
          lastAttended := Some(UtcDay(t[i].date));
        }
        break;
      }
      if AbsentStatus(t[i].status) || t[i].status == Unregistered {
        streak := streak + 1;
      } else {
        break;
      }
      i := i + 1;
    }
  }

  // ---------------------------------------------------------------------------------------
  // Agreement

  ghost predicate Lists(l: seq<Session>, sessions: set<Session>) {
    && (set e | e in l) == sessions
    && forall i, j | 0 <= i < j < |l| :: l[i] != l[j]
  }

  /** The list is in the order the query ranks by. */
  ghost predicate InRankOrder(l: seq<Session>) {
    forall i, j | 0 <= i < j < |l| :: Newer(l[i], l[j])
  }

  lemma RankIsPosition(sessions: set<Session>, l: seq<Session>, i: nat)
    requires Lists(l, sessions) && InRankOrder(l) && i < |l|
    ensures Rank(sessions, l[i]) == i + 1
  {
    DistinctSize(l[..i]);
    assert (set f <- sessions | Newer(f, l[i])) == (set x | x in l[..i]);
  }

  /** Positions of a timeline in a bucket, within a set of sessions. */
  ghost function Positions(t: seq<Entry>, among: set<int>, b: Bucket): set<int> {
    set i | 0 <= i < |t| && t[i].id in among && In(b, t[i].status)
  }

  lemma CellsArePositions(marks: set<Mark>, user: int, l: seq<Session>, sessions: set<Session>,
                          among: set<int>, b: Bucket)
    requires UniqueIds(sessions) && Lists(l, sessions) && among <= Ids(sessions)
    ensures |Cells(marks, {user}, among, b)| == |Positions(TimelineOf(marks, user, l), among, b)|
  {
    var t := TimelineOf(marks, user, l);
    var positions := Positions(t, among, b);
    var cell := (i: int) => if 0 <= i < |l| then (user, l[i].id) else (user, 0);
    assert forall i | 0 <= i < |l| :: l[i] in l;
    ImageSize(positions, cell);
    forall e <- among | In(b, StatusOf(marks, user, e))
      ensures (user, e) in Image(positions, cell)
    {
      var s :| s in sessions && s.id == e;
      assert s in l;
      var i :| 0 <= i < |l| && l[i] == s;
      assert i in positions && cell(i) == (user, e);
    }
    assert Image(positions, cell) == Cells(marks, {user}, among, b);
  }

  /** The attended ranks are the positions of attended entries, counted from one. */
  lemma AttendedRanksArePositions(sessions: set<Session>, marks: set<Mark>, user: int, l: seq<Session>, r: int)
    requires UniqueIds(sessions) && UniqueMarks(marks) && Lists(l, sessions) && InRankOrder(l)
    ensures r in AttendedRanks(sessions, marks, user) <==>
            1 <= r <= |l| && Attended(StatusOf(marks, user, l[r - 1].id))
  {
    if r in AttendedRanks(sessions, marks, user) {
      var m :| m in Rows(marks, {user}, Ids(sessions), InAttended) &&
               Rank(sessions, SessionOf(sessions, m.event)) == r;
      StatusOfRow(marks, m);
      assert SessionOf(sessions, m.event) in l;
      var i :| 0 <= i < |l| && l[i] == SessionOf(sessions, m.event);
      RankIsPosition(sessions, l, i);
    }
    if 1 <= r <= |l| && Attended(StatusOf(marks, user, l[r - 1].id)) {
      RankIsPosition(sessions, l, r - 1);
      var e := l[r - 1];
      assert e in l;
      var m :| HasRow(marks, m, user, e.id);
      StatusOfRow(marks, m);
      assert SessionOf(sessions, m.event) == e;
      assert m in Rows(marks, {user}, Ids(sessions), InAttended);
    }
  }

  lemma LeastIs(s: set<int>, m: int)
    requires m in s && forall x <- s :: m <= x
    ensures Least(s) == m
  {
  }

  lemma FirstAttendedRankIsWalk(sessions: set<Session>, marks: set<Mark>, user: int, l: seq<Session>)
    requires UniqueIds(sessions) && UniqueMarks(marks) && Lists(l, sessions) && InRankOrder(l)
    ensures var k := FirstAttended(TimelineOf(marks, user, l));
            FirstAttendedRank(sessions, marks, user) == if k < |l| then Some(k + 1) else None
  {
    var t := TimelineOf(marks, user, l);
    var k := FirstAttended(t);
    var ranks := AttendedRanks(sessions, marks, user);
    forall r <- ranks
      ensures k < r && k < |l|
    {
      AttendedRanksArePositions(sessions, marks, user, l, r);
      assert Attended(t[r - 1].status);
    }
    if k < |l| {
      AttendedRanksArePositions(sessions, marks, user, l, k + 1);
      LeastIs(ranks, k + 1);
    } else {
      assert ranks == {};
    }
  }

  lemma LatestStatusIsHead(sessions: set<Session>, marks: set<Mark>, user: int, l: seq<Session>)
    requires UniqueIds(sessions) && UniqueMarks(marks) && Lists(l, sessions) && InRankOrder(l) && l != []
    ensures var latest := LatestStatus(sessions, marks, user);
            (if latest.Some? then latest.value else Unregistered) == StatusOf(marks, user, l[0].id)
  {
    var newest := set m <- marks | !m.deleted && m.user == user && m.event in Ids(sessions) &&
                                   Rank(sessions, SessionOf(sessions, m.event)) == 1 :: m.status;
    RankIsPosition(sessions, l, 0);
    assert l[0] in l;
    assert SessionOf(sessions, l[0].id) == l[0];
    forall m <- marks | !m.deleted && m.user == user && m.event in Ids(sessions) &&
                        Rank(sessions, SessionOf(sessions, m.event)) == 1
      ensures m.event == l[0].id && m.status == StatusOf(marks, user, l[0].id)
    {
      var e := SessionOf(sessions, m.event);
      assert e in l;
      var i :| 0 <= i < |l| && l[i] == e;
      RankIsPosition(sessions, l, i);
      StatusOfRow(marks, m);
    }
    if m :| HasRow(marks, m, user, l[0].id) {
      StatusOfRow(marks, m);
      assert m.status in newest;
      assert newest == {m.status};
    } else {
      forall m <- marks | !m.deleted && m.user == user && m.event in Ids(sessions) &&
                          Rank(sessions, SessionOf(sessions, m.event)) == 1
        ensures HasRow(marks, m, user, l[0].id)
      {
      }
      assert newest == {};
    }
  }

  /** The streak, last attendance and latest status of the query are those of the walk. */
  lemma QueryAgreesWithWalk(sessions: set<Session>, marks: set<Mark>, user: int, l: seq<Session>, weekAgo: int,
                            today: int)
    requires UniqueIds(sessions) && UniqueMarks(marks) && Lists(l, sessions) && InRankOrder(l) && l != []
    ensures var row := QueryRow(sessions, marks, user, weekAgo, today);
            var t := TimelineOf(marks, user, l);
            var k := FirstAttended(t);
            && row.streak == k
            && row.lastAttended == (if k < |t| then Some(UtcDay(t[k].date)) else None)
            && row.lastStatus == t[0].status
            && row.scheduled == |t|
  {
    var k := FirstAttended(TimelineOf(marks, user, l));
    FirstAttendedRankIsWalk(sessions, marks, user, l);
    LatestStatusIsHead(sessions, marks, user, l);
    DistinctSize(l);
    if k < |l| {
      RankIsPosition(sessions, l, k);
      assert l[k] in l;
      forall e <- sessions | Rank(sessions, e) == k + 1
        ensures e == l[k]
      {
        var i :| 0 <= i < |l| && l[i] == e;
        RankIsPosition(sessions, l, i);
      }
    }
  }

  lemma RowsArePositions(marks: set<Mark>, user: int, l: seq<Session>, sessions: set<Session>,
                         among: set<int>, b: Bucket)
    requires UniqueMarks(marks) && UniqueIds(sessions) && Lists(l, sessions)
    requires among <= Ids(sessions) && !In(b, Unregistered)
    ensures |Rows(marks, {user}, among, b)| == |Positions(TimelineOf(marks, user, l), among, b)|
  {
    RowsAreCells(marks, {user}, among, b);
    CellsArePositions(marks, user, l, sessions, among, b);
  }

  lemma RemainderIsUnregistered(marks: set<Mark>, user: int, l: seq<Session>, sessions: set<Session>)
    requires UniqueMarks(marks) && UniqueIds(sessions) && Lists(l, sessions)
    ensures |sessions| - |Rows(marks, {user}, Ids(sessions), InPresent)| - |Rows(marks, {user}, Ids(sessions), InLate)|
            - |Rows(marks, {user}, Ids(sessions), InAbsent)|
            == |Positions(TimelineOf(marks, user, l), Ids(sessions), InUnregistered)|
  {
    var ids := Ids(sessions);
    RowsAreCells(marks, {user}, ids, InPresent);
    RowsAreCells(marks, {user}, ids, InLate);
    RowsAreCells(marks, {user}, ids, InAbsent);
    BucketsPartition(marks, {user}, ids);
    IdsSize(sessions);
    CellsArePositions(marks, user, l, sessions, ids, InUnregistered);
  }

  lemma WindowRemainderIsMissed(marks: set<Mark>, user: int, l: seq<Session>, sessions: set<Session>,
                                recent: set<Session>)
    requires UniqueMarks(marks) && UniqueIds(sessions) && Lists(l, sessions) && recent <= sessions
    ensures |recent| - |Rows(marks, {user}, Ids(recent), InAttended)|
            == |Positions(TimelineOf(marks, user, l), Ids(recent), InMissed)|
  {
    RowsAreCells(marks, {user}, Ids(recent), InAttended);
    AttendedOrMissed(marks, {user}, Ids(recent));
    IdsSize(recent);
    CellsArePositions(marks, user, l, sessions, Ids(recent), InMissed);
  }

  /** The counts of the query, the unregistered ones by subtraction included, are the numbers of
      sessions of each kind on the timeline. */
  lemma QueryCountsTheTimeline(sessions: set<Session>, marks: set<Mark>, user: int, l: seq<Session>, weekAgo: int,
                               today: int)
    requires UniqueIds(sessions) && UniqueMarks(marks) && Lists(l, sessions)
    ensures var row := QueryRow(sessions, marks, user, weekAgo, today);
            var t := TimelineOf(marks, user, l);
            && row.present == |Positions(t, Ids(sessions), InPresent)|
            && row.late == |Positions(t, Ids(sessions), InLate)|
            && row.absent == |Positions(t, Ids(sessions), InAbsent)|
            && row.unregistered == |Positions(t, Ids(sessions), InUnregistered)|
            && row.absentLast7 == |Positions(t, Ids(InWindow(sessions, weekAgo, today)), InMissed)|
  {
    RowsArePositions(marks, user, l, sessions, Ids(sessions), InPresent);
    RowsArePositions(marks, user, l, sessions, Ids(sessions), InLate);
    RowsArePositions(marks, user, l, sessions, Ids(sessions), InAbsent);
    RemainderIsUnregistered(marks, user, l, sessions);
    WindowRemainderIsMissed(marks, user, l, sessions, InWindow(sessions, weekAgo, today));
  }

  // ---------------------------------------------------------------------------------------
  // The summary over pairs of a student and a course

  datatype Totals = Totals(pairs: nat, scheduled: int, attended: int, absentLast7: int)

  /** COUNT and SUM over the rows that the rate filter left. */
  function Summarize(rows: seq<PairRow>): Totals {
    if rows == [] then Totals(0, 0, 0, 0)
    else
      var t, r := Summarize(rows[..|rows| - 1]), rows[|rows| - 1];
      Totals(t.pairs + 1, t.scheduled + r.scheduled, t.attended + r.present + r.late,
             t.absentLast7 + r.absentLast7)
  }

  function CourseSessions(sessions: set<Session>, course: int): set<Session> {
    set e <- sessions | e.course == course
  }

  ghost function PairRows(sessions: set<Session>, marks: set<Mark>, pairs: seq<(int, int)>,
                          weekAgo: int, today: int): seq<PairRow> {
    seq(|pairs|, i requires 0 <= i < |pairs| =>
      QueryRow(CourseSessions(sessions, pairs[i].1), marks, pairs[i].0, weekAgo, today))
  }

  /** The student and session of every scheduled slot of the pairs whose status is in the bucket. */
  ghost function SlotsOf(sessions: set<Session>, marks: set<Mark>, pairs: seq<(int, int)>, b: Bucket): set<(int, int)> {
    set p <- pairs, e <- sessions | e.course == p.1 && In(b, StatusOf(marks, p.0, e.id)) :: (p.0, e.id)
  }

  ghost predicate OncePerPair(pairs: seq<(int, int)>) {
    forall i, j | 0 <= i < j < |pairs| :: pairs[i] != pairs[j]
  }

  lemma SlotsOfPair(sessions: set<Session>, marks: set<Mark>, p: (int, int), b: Bucket)
    ensures SlotsOf(sessions, marks, [p], b) == Cells(marks, {p.0}, Ids(CourseSessions(sessions, p.1)), b)
  {
    forall u, e | (u, e) in Cells(marks, {p.0}, Ids(CourseSessions(sessions, p.1)), b)
      ensures (u, e) in SlotsOf(sessions, marks, [p], b)
    {
      var s :| s in CourseSessions(sessions, p.1) && s.id == e;
      assert p in [p];
    }
    forall s <- CourseSessions(sessions, p.1)
      ensures s.id in Ids(CourseSessions(sessions, p.1))
    {
    }
  }

  lemma SlotsSplit(sessions: set<Session>, marks: set<Mark>, pairs: seq<(int, int)>, p: (int, int), b: Bucket)
    ensures SlotsOf(sessions, marks, pairs + [p], b) ==
            SlotsOf(sessions, marks, pairs, b) + SlotsOf(sessions, marks, [p], b)
  {
    assert forall q :: q in pairs + [p] <==> q in pairs || q in [p];
  }

  lemma SlotsApart(sessions: set<Session>, marks: set<Mark>, pairs: seq<(int, int)>, p: (int, int), b: Bucket)
    requires UniqueIds(sessions) && p !in pairs
    ensures SlotsOf(sessions, marks, pairs, b) !! SlotsOf(sessions, marks, [p], b)
  {
  }

  lemma SlotsOfOneMore(sessions: set<Session>, marks: set<Mark>, pairs: seq<(int, int)>, p: (int, int), b: Bucket)
    requires UniqueIds(sessions) && p !in pairs
    ensures |SlotsOf(sessions, marks, pairs + [p], b)| ==
            |SlotsOf(sessions, marks, pairs, b)| + |Cells(marks, {p.0}, Ids(CourseSessions(sessions, p.1)), b)|
  {
    SlotsOfPair(sessions, marks, p, b);
    SlotsSplit(sessions, marks, pairs, p, b);
    SlotsApart(sessions, marks, pairs, p, b);
  }

  lemma SplitByAttendance(sessions: set<Session>, marks: set<Mark>, user: int)
    requires UniqueIds(sessions) && UniqueMarks(marks)
    ensures var ids := Ids(sessions);
            var attended := |Rows(marks, {user}, ids, InAttended)|;
            && |Rows(marks, {user}, ids, InPresent)| + |Rows(marks, {user}, ids, InLate)| == attended
            && attended == |Cells(marks, {user}, ids, InAttended)|
            && |sessions| - attended == |Cells(marks, {user}, ids, InMissed)|
  {
    var ids := Ids(sessions);
    var present, late := Rows(marks, {user}, ids, InPresent), Rows(marks, {user}, ids, InLate);
    assert Rows(marks, {user}, ids, InAttended) == present + late && present !! late;
    RowsAreCells(marks, {user}, ids, InAttended);
    AttendedOrMissed(marks, {user}, ids);
    IdsSize(sessions);
  }

  /** What one row of the query adds to the summary. */
  lemma RowCountsCells(sessions: set<Session>, marks: set<Mark>, user: int, weekAgo: int, today: int)
    requires UniqueIds(sessions) && UniqueMarks(marks)
    ensures var row, recent := QueryRow(sessions, marks, user, weekAgo, today), InWindow(sessions, weekAgo, today);
            var attended := |Cells(marks, {user}, Ids(sessions), InAttended)|;
            && row.present + row.late == attended
            && row.scheduled == attended + |Cells(marks, {user}, Ids(sessions), InMissed)|
            && row.absentLast7 == |Cells(marks, {user}, Ids(recent), InMissed)|
  {
    SplitByAttendance(sessions, marks, user);
    SplitByAttendance(InWindow(sessions, weekAgo, today), marks, user);
  }

  /** The summary of these rows counts the slots of these pairs. */
  ghost predicate CountsSlots(t: Totals, sessions: set<Session>, marks: set<Mark>, pairs: seq<(int, int)>,
                              recent: set<Session>) {
    && t.pairs == |pairs|
    && t.attended == |SlotsOf(sessions, marks, pairs, InAttended)|
    && t.scheduled == t.attended + |SlotsOf(sessions, marks, pairs, InMissed)|
    && t.absentLast7 == |SlotsOf(recent, marks, pairs, InMissed)|
  }

  lemma OneMoreRow(sessions: set<Session>, marks: set<Mark>, pairs: seq<(int, int)>, p: (int, int),
                   weekAgo: int, today: int)
    requires UniqueIds(sessions) && UniqueMarks(marks) && p !in pairs
    requires CountsSlots(Summarize(PairRows(sessions, marks, pairs, weekAgo, today)), sessions, marks, pairs,
                         InWindow(sessions, weekAgo, today))
    ensures CountsSlots(Summarize(PairRows(sessions, marks, pairs + [p], weekAgo, today)), sessions, marks, pairs + [p],
                        InWindow(sessions, weekAgo, today))
  {
    var recent, own := InWindow(sessions, weekAgo, today), CourseSessions(sessions, p.1);
    var rows := PairRows(sessions, marks, pairs, weekAgo, today);
    var all := PairRows(sessions, marks, pairs + [p], weekAgo, today);
    assert all[..|all| - 1] == rows;
    assert all[|all| - 1] == QueryRow(own, marks, p.0, weekAgo, today);
    RowCountsCells(own, marks, p.0, weekAgo, today);
    assert InWindow(own, weekAgo, today) == CourseSessions(recent, p.1);
    SlotsOfOneMore(sessions, marks, pairs, p, InAttended);
    SlotsOfOneMore(sessions, marks, pairs, p, InMissed);
    SlotsOfOneMore(recent, marks, pairs, p, InMissed);
  }

  /** Whichever pairs the filter leaves, the totals over their rows count the slots of their grid:
      the attended ones, all of them, and the missed ones of the last week. */
  lemma {:induction false} SummaryCountsTheSlots(sessions: set<Session>, marks: set<Mark>, pairs: seq<(int, int)>,
                                                 weekAgo: int, today: int)
    requires UniqueIds(sessions) && UniqueMarks(marks) && OncePerPair(pairs)
    ensures CountsSlots(Summarize(PairRows(sessions, marks, pairs, weekAgo, today)), sessions, marks, pairs,
                        InWindow(sessions, weekAgo, today))
  {
    if pairs == [] {
      assert forall es, b :: SlotsOf(es, marks, pairs, b) == {};
    } else {
      var init, p := pairs[..|pairs| - 1], pairs[|pairs| - 1];
      assert pairs == init + [p] && p !in init;
      SummaryCountsTheSlots(sessions, marks, init, weekAgo, today);
      OneMoreRow(sessions, marks, init, p, weekAgo, today);
    }
  }

  // ---------------------------------------------------------------------------------------
  // Sessions that share a date

  /** The two computations of the streak agree, whatever the marks. */
  ghost predicate StreaksAgree(sessions: set<Session>, l: seq<Session>) {
    forall marks: set<Mark>, user: int | UniqueMarks(marks) ::
      QueryRow(sessions, marks, user, 0, 0).streak == FirstAttended(TimelineOf(marks, user, l))
  }

  lemma RankedByPosition(sessions: set<Session>, l: seq<Session>)
    requires UniqueIds(sessions) && Lists(l, sessions)
    requires forall i | 0 <= i < |l| :: Rank(sessions, l[i]) == i + 1
    ensures InRankOrder(l)
  {
    forall i, j | 0 <= i < j < |l|
      ensures Newer(l[i], l[j])
    {
      assert l[i] in l && l[j] in l;
      if !Newer(l[i], l[j]) {
        var below := set f <- sessions | Newer(f, l[j]);
        assert below < (set f <- sessions | Newer(f, l[i])) by {
          assert l[i].id != l[j].id;
          assert l[j] in (set f <- sessions | Newer(f, l[i])) - below;
        }
        SubsetSize(below, set f <- sessions | Newer(f, l[i]));
      }
    }
  }

  lemma {:induction false} SubsetSize<A>(a: set<A>, b: set<A>)
    requires a <= b
    ensures |a| <= |b|
  {
    assert b == a + (b - a);
  }

  /** One attended mark at a session shows where each computation puts that session. */
  lemma ProbeQuery(sessions: set<Session>, e: Session)
    requires UniqueIds(sessions) && e in sessions
    ensures QueryRow(sessions, {Mark(0, e.id, Present, false)}, 0, 0, 0).streak == Rank(sessions, e) - 1
  {
    var m := Mark(0, e.id, Present, false);
    assert SessionOf(sessions, e.id) == e;
    assert Rows({m}, {0}, Ids(sessions), InAttended) == {m};
    assert AttendedRanks(sessions, {m}, 0) == {Rank(sessions, e)};
    LeastIs(AttendedRanks(sessions, {m}, 0), Rank(sessions, e));
  }

  lemma ProbeWalk(l: seq<Session>, i: nat)
    requires i < |l| && forall j | 0 <= j < |l| && j != i :: l[j].id != l[i].id
    ensures FirstAttended(TimelineOf({Mark(0, l[i].id, Present, false)}, 0, l)) == i
  {
    var m := Mark(0, l[i].id, Present, false);
    var t := TimelineOf({m}, 0, l);
    assert HasRow({m}, m, 0, l[i].id);
    forall j | 0 <= j < |l|
      ensures Attended(t[j].status) <==> j == i
    {
    }
    var k := FirstAttended(t);
    assert k <= i by {
      assert Attended(t[i].status);
    }
  }

  /** Whatever list the walk goes through, it yields the query's streaks for all marks exactly when
      the list is in the query's order. */
  lemma StreaksAgreeIffRankOrder(sessions: set<Session>, l: seq<Session>)
    requires UniqueIds(sessions) && Lists(l, sessions)
    ensures StreaksAgree(sessions, l) <==> InRankOrder(l)
  {
    if InRankOrder(l) {
      forall marks: set<Mark>, user: int | UniqueMarks(marks)
        ensures QueryRow(sessions, marks, user, 0, 0).streak == FirstAttended(TimelineOf(marks, user, l))
      {
        FirstAttendedRankIsWalk(sessions, marks, user, l);
        DistinctSize(l);
      }
    }
    if StreaksAgree(sessions, l) {
      forall i | 0 <= i < |l|
        ensures Rank(sessions, l[i]) == i + 1
      {
        assert forall j | 0 <= j < |l| :: l[j] in l;
        ProbeQuery(sessions, l[i]);
        ProbeWalk(l, i);
        assert UniqueMarks({Mark(0, l[i].id, Present, false)});
      }
      RankedByPosition(sessions, l);
    }
  }

  /** What the walk goes through: rows read in ascending order of date and time, then sorted stably
      by date alone, newest date first. Sessions of one date and time come in any order. */
  ghost predicate StableByDate(l: seq<Session>) {
    forall i, j | 0 <= i < j < |l| ::
      l[i].date > l[j].date || (l[i].date == l[j].date && l[i].timeFrom <= l[j].timeFrom)
  }

  /** Sessions of one date have one time too, and the later id comes first. */
  ghost predicate TiesFollowIds(l: seq<Session>) {
    forall i, j | 0 <= i < j < |l| && l[i].date == l[j].date :: l[i].timeFrom == l[j].timeFrom && l[i].id > l[j].id
  }

  /** With such a list the streaks agree for all marks exactly when sessions that share a date also
      share their time and happen to be listed by descending id. */
  lemma StreaksAgreeIffTiesFollowIds(sessions: set<Session>, l: seq<Session>)
    requires UniqueIds(sessions) && Lists(l, sessions) && StableByDate(l)
    ensures StreaksAgree(sessions, l) <==> TiesFollowIds(l)
  {
    StreaksAgreeIffRankOrder(sessions, l);
    if InRankOrder(l) {
      forall i, j | 0 <= i < j < |l| && l[i].date == l[j].date
        ensures l[i].timeFrom == l[j].timeFrom && l[i].id > l[j].id
      {
        assert Newer(l[i], l[j]);
      }
    }
    if TiesFollowIds(l) {
      forall i, j | 0 <= i < j < |l|
        ensures Newer(l[i], l[j])
      {
      }
    }
  }

  /** So where no two sessions share both date and time, the streaks agree for all marks exactly
      when no two sessions of the course share a date. */
  lemma StreaksAgreeIffDatesDiffer(sessions: set<Session>, l: seq<Session>)
    requires UniqueIds(sessions) && Lists(l, sessions) && StableByDate(l)
    requires forall e <- sessions, f <- sessions :: e.date == f.date && e.timeFrom == f.timeFrom ==> e == f
    ensures StreaksAgree(sessions, l) <==> forall e <- sessions, f <- sessions :: e.date == f.date ==> e == f
  {
    StreaksAgreeIffTiesFollowIds(sessions, l);
    SharedDateBreaksTies(sessions, l);
  }

  lemma SharedDateBreaksTies(sessions: set<Session>, l: seq<Session>)
    requires Lists(l, sessions)
    requires forall e <- sessions, f <- sessions :: e.date == f.date && e.timeFrom == f.timeFrom ==> e == f
    ensures TiesFollowIds(l) <==> forall e <- sessions, f <- sessions :: e.date == f.date ==> e == f
  {
    assert forall i | 0 <= i < |l| :: l[i] in l;
    if e, f :| e in sessions && f in sessions && e.date == f.date && e != f {
      assert e in l && f in l;
      var i :| 0 <= i < |l| && l[i] == e;
      var j :| 0 <= j < |l| && l[j] == f;
      var a, b := if i < j then i else j, if i < j then j else i;
      assert l[a].date == l[b].date;
      assert !TiesFollowIds(l);
    }
  }
}
