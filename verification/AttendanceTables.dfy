/**
 Sessions and attendance marks as tables: sets of rows with their unique keys. Counting rows of a
 table and counting cells of a student-by-session grid come to the same number.
 */
module AttendanceTables {
  datatype Status = Present | Late | Absent | AbsentWithLeave | Unregistered

  /** A row of the event table; `date` is an instant in minutes. */
  datatype Session = Session(id: int, course: int, date: int, timeFrom: int)

  datatype Mark = Mark(user: int, event: int, status: Status, deleted: bool)

  predicate Attended(st: Status) { st == Present || st == Late }

  predicate AbsentStatus(st: Status) { st == Absent || st == AbsentWithLeave }

  /** The buckets that reports count. */
  datatype Bucket = InPresent | InLate | InAbsent | InAttended | InMissed | InUnregistered

  predicate In(b: Bucket, st: Status) {
    match b
    case InPresent => st == Present
    case InLate => st == Late
    case InAbsent => AbsentStatus(st)
    case InAttended => Attended(st)
    case InMissed => !Attended(st)
    case InUnregistered => st == Unregistered
  }

  ghost predicate UniqueIds(sessions: set<Session>) {
    forall e <- sessions, f <- sessions :: e.id == f.id ==> e == f
  }

  /** `unique_together = ("user", "event")` */
  ghost predicate UniqueMarks(marks: set<Mark>) {
    forall m <- marks, n <- marks :: m.user == n.user && m.event == n.event ==> m == n
  }

  function Ids(sessions: set<Session>): set<int> { set e <- sessions :: e.id }

  /** The live row of a student and session, if there is one. */
  ghost predicate HasRow(marks: set<Mark>, m: Mark, user: int, event: int) {
    m in marks && !m.deleted && m.user == user && m.event == event
  }

  /** The status a lookup by student and session yields; a missing row means unregistered. */
  ghost function StatusOf(marks: set<Mark>, user: int, event: int): Status {
    if m :| HasRow(marks, m, user, event) then m.status else Unregistered
  }

  lemma StatusOfRow(marks: set<Mark>, m: Mark)
    requires UniqueMarks(marks) && m in marks && !m.deleted
    ensures StatusOf(marks, m.user, m.event) == m.status
  {
    assert HasRow(marks, m, m.user, m.event);
  }

  /** Live rows of the given students and sessions in a bucket. */
  ghost function Rows(marks: set<Mark>, users: set<int>, events: set<int>, b: Bucket): set<Mark> {
    set m <- marks | !m.deleted && m.user in users && m.event in events && In(b, m.status)
  }

  /** Cells of the grid of students and sessions whose status is in a bucket. */
  ghost function Cells(marks: set<Mark>, users: set<int>, events: set<int>, b: Bucket): set<(int, int)> {
    set u <- users, e <- events | In(b, StatusOf(marks, u, e)) :: (u, e)
  }

  ghost function Pick<A>(s: set<A>): (x: A)
    requires s != {}
    ensures x in s
  {
    var x :| x in s; x
  }

  ghost function Image<A, B>(s: set<A>, f: A -> B): set<B> { set x <- s :: f(x) }

  lemma {:induction false} ImageSize<A, B>(s: set<A>, f: A -> B)
    requires forall x <- s, y <- s :: f(x) == f(y) ==> x == y
    ensures |Image(s, f)| == |s|
  {
    if s != {} {
      var x :| x in s;
      ImageSize(s - {x}, f);
      assert Image(s, f) == Image(s - {x}, f) + {f(x)};
    }
  }

  /** Rows and cells are in one-to-one correspondence, except for cells without a row. */
  lemma RowsAreCells(marks: set<Mark>, users: set<int>, events: set<int>, b: Bucket)
    requires UniqueMarks(marks) && !In(b, Unregistered)
    ensures |Rows(marks, users, events, b)| == |Cells(marks, users, events, b)|
  {
    var rows := Rows(marks, users, events, b);
    var key := (m: Mark) => (m.user, m.event);
    ImageSize(rows, key);
    forall u <- users, e <- events | In(b, StatusOf(marks, u, e))
      ensures (u, e) in Image(rows, key)
    {
      var m :| HasRow(marks, m, u, e) && m.status == StatusOf(marks, u, e);
      assert m in rows && key(m) == (u, e);
    }
    forall m <- rows
      ensures key(m) in Cells(marks, users, events, b)
    {
      StatusOfRow(marks, m);
    }
    assert Image(rows, key) == Cells(marks, users, events, b);
  }

  ghost function Grid(users: set<int>, events: set<int>): set<(int, int)> {
    set u <- users, e <- events :: (u, e)
  }

  lemma GridSplits(users: set<int>, events: set<int>, u0: int)
    requires u0 in users
    ensures Grid(users, events) == Grid(users - {u0}, events) + Grid({u0}, events)
    ensures Grid(users - {u0}, events) !! Grid({u0}, events)
  {
  }

  lemma GridRowSize(u0: int, events: set<int>)
    ensures |Grid({u0}, events)| == |events|
  {
    var row := (e: int) => (u0, e);
    ImageSize(events, row);
    forall e <- events
      ensures row(e) in Grid({u0}, events) && (u0, e) in Image(events, row)
    {
      assert row(e) == (u0, e);
    }
    assert Grid({u0}, events) == Image(events, row);
  }

  lemma {:induction false} GridSize(users: set<int>, events: set<int>)
    ensures |Grid(users, events)| == |users| * |events|
  {
    if users != {} {
      var u0 := Pick(users);
      GridSize(users - {u0}, events);
      GridSplits(users, events, u0);
      GridRowSize(u0, events);
      assert |users| == |users - {u0}| + 1;
      assert |users - {u0}| * |events| + |events| == |users| * |events|;
    }
  }

  /** Every cell is in exactly one of the four buckets of a report. */
  lemma BucketsPartition(marks: set<Mark>, users: set<int>, events: set<int>)
    ensures |Cells(marks, users, events, InPresent)| + |Cells(marks, users, events, InLate)|
            + |Cells(marks, users, events, InAbsent)| + |Cells(marks, users, events, InUnregistered)|
            == |users| * |events|
  {
    var p, l := Cells(marks, users, events, InPresent), Cells(marks, users, events, InLate);
    var a, n := Cells(marks, users, events, InAbsent), Cells(marks, users, events, InUnregistered);
    assert p !! l && (p + l) !! a && (p + l + a) !! n;
    assert p + l + a + n == Grid(users, events);
    GridSize(users, events);
  }

  /** Every cell is attended or missed. */
  lemma AttendedOrMissed(marks: set<Mark>, users: set<int>, events: set<int>)
    ensures |Cells(marks, users, events, InAttended)| + |Cells(marks, users, events, InMissed)|
            == |users| * |events|
  {
    var a, n := Cells(marks, users, events, InAttended), Cells(marks, users, events, InMissed);
    assert a !! n && a + n == Grid(users, events);
    GridSize(users, events);
  }

  lemma IdsSize(sessions: set<Session>)
    requires UniqueIds(sessions)
    ensures |Ids(sessions)| == |sessions|
  {
    var id := (e: Session) => e.id;
    ImageSize(sessions, id);
    assert Image(sessions, id) == Ids(sessions);
  }

  /** A list without repetition has as many members as elements. */
  lemma {:induction false} DistinctSize<A>(s: seq<A>)
    requires forall i, j | 0 <= i < j < |s| :: s[i] != s[j]
    ensures |set x | x in s| == |s|
  {
    if s != [] {
      var init := s[..|s| - 1];
      DistinctSize(init);
      assert s == init + [s[|s| - 1]];
      assert (set x | x in s) == (set x | x in init) + {s[|s| - 1]};
    } else {
      assert (set x | x in s) == {};
    }
  }
}
