/**
 Committing prepared import rows: users are found by matched id or by email, new ones are
 created, known ones only have their blanks filled, and everyone is enrolled. Emails are
 normalized before they get here, so they are compared as they are.
 */
module ImportCommit {
  import opened Wrappers
  import opened ImportRows

  datatype User = User(email: string, fields: Fields, custom: Fields)

  /** The tables; `emails` is the unique index on the email of a user, `enrolled` holds the open
      enrolments, and `joined` the recorded membership events. */
  datatype Db = Db(
    users: map<int, User>,
    emails: map<string, int>,
    nextId: int,
    courses: set<int>,
    enrolled: set<(int, int)>,
    joined: seq<(int, int)>)

  ghost predicate Valid(db: Db) {
    && 0 < db.nextId
    && (forall email :: email in db.emails ==>
          db.emails[email] in db.users && db.users[db.emails[email]].email == email)
    && (forall id :: id in db.users ==>
          0 < id < db.nextId && db.users[id].email in db.emails && db.emails[db.users[id].email] == id)
  }

  datatype Report = Report(created: nat, updated: nat, enrolled: nat, createdIds: seq<int>)

  // ---------------------------------------------------------------------------------------
  // Finding and filling users

  function ById(db: Db, p: Prepared): Option<int> {
    if p.matchId.Some? && p.matchId.value != 0 && p.matchId.value in db.users then p.matchId else None
  }

  /** The stored user a row resolves to: the matched id first, then the email. */
  function Target(db: Db, p: Prepared): Option<int> {
    if ById(db, p).Some? then ById(db, p)
    else if p.email in db.emails then Some(db.emails[p.email])
    else None
  }

  /** What a row has to say about fields; identity and built-in fields never share a name. */
  function Incoming(p: Prepared): Fields { p.identity + p.builtins - {"email"} }

  function FilledUser(user: User, p: Prepared): User {
    user.(fields := Filled(user.fields, Incoming(p)), custom := Filled(user.custom, p.custom))
  }

  predicate Fills(user: User, p: Prepared) {
    AnyFilling(user.fields, Incoming(p)) || AnyFilling(user.custom, p.custom)
  }

  /** A code is assigned where the row brings none; which one is up to the caller. */
  function NewUser(p: Prepared, code: Value): User {
    var fields := Incoming(p);
    User(p.email, if Blank(Get(fields, "code")) then fields["code" := code] else fields, p.custom)
  }

  /** The users to create, and the loaded users with their blanks filled so far. */
  datatype Plan = Plan(creations: seq<User>, loaded: map<int, User>)

  function Loaded(db: Db, loaded: map<int, User>, id: int): User
    requires id in db.users
  {
    if id in loaded then loaded[id] else db.users[id]
  }

  function PlanOne(db: Db, plan: Plan, p: Prepared, code: Value): Plan
    requires Valid(db)
  {
    var target := Target(db, p);
    if target.None? then plan.(creations := plan.creations + [NewUser(p, code)])
    else plan.(loaded := plan.loaded[target.value := FilledUser(Loaded(db, plan.loaded, target.value), p)])
  }

  function PlanRows(db: Db, rows: seq<Prepared>, codes: nat -> Value): Plan
    requires Valid(db)
  {
    if rows == [] then Plan([], map[])
    else
      var n := |rows| - 1;
      PlanOne(db, PlanRows(db, rows[..n], codes), rows[n], codes(n))
  }

  /** A row counts as an update when it filled something. */
  function UpdatedCount(db: Db, rows: seq<Prepared>, codes: nat -> Value): nat
    requires Valid(db)
  {
    if rows == [] then 0
    else
      var n := |rows| - 1;
      var target := Target(db, rows[n]);
      UpdatedCount(db, rows[..n], codes)
      + if target.Some? && Fills(Loaded(db, PlanRows(db, rows[..n], codes).loaded, target.value), rows[n]) then 1 else 0
  }

  /** Inserting users in order under the next free ids. */
  function InsertAll(db: Db, creations: seq<User>): Db {
    if creations == [] then db
    else
      var n := |creations| - 1;
      var before := InsertAll(db, creations[..n]);
      before.(users := before.users[before.nextId := creations[n]],
              emails := before.emails[creations[n].email := before.nextId],
              nextId := before.nextId + 1)
  }

  /** Two new users with one email violate the unique index, and the import rolls back. */
  predicate Repeated(creations: seq<User>) {
    exists i, j :: 0 <= i < j < |creations| && creations[i].email == creations[j].email
  }

  // ---------------------------------------------------------------------------------------
  // Enrolment

  /** The user an email stands for: the last row matched by id, else the holder of the email. */
  function Owner(db: Db, emails: map<string, int>, rows: seq<Prepared>, email: string): Option<int> {
    if rows == [] then (if email in emails then Some(emails[email]) else None)
    else
      var last := rows[|rows| - 1];
      if last.email == email && ById(db, last).Some? then ById(db, last)
      else Owner(db, emails, rows[..|rows| - 1], email)
  }

  /** Whether the holder of an email, if any, was in a course before the import. */
  predicate AlreadyIn(db: Db, email: string, course: int) {
    email in db.emails && (db.emails[email], course) in db.enrolled
  }

  predicate Skipped(db: Db, keys: seq<(string, int)>, email: string, course: int) {
    course !in db.courses || (email, course) in keys || AlreadyIn(db, email, course)
  }

  function RowKeys(db: Db, keys: seq<(string, int)>, email: string, courses: seq<int>): seq<(string, int)> {
    if courses == [] then keys
    else
      var before := RowKeys(db, keys, email, courses[..|courses| - 1]);
      var course := courses[|courses| - 1];
      if Skipped(db, before, email, course) then before else before + [(email, course)]
  }

  /** The pairs of email and course that get a new enrolment, in order. */
  function EnrolKeys(db: Db, rows: seq<Prepared>): seq<(string, int)> {
    if rows == [] then []
    else
      var last := rows[|rows| - 1];
      RowKeys(db, EnrolKeys(db, rows[..|rows| - 1]), last.email, last.courses)
  }

  /** The pairs of user and course sent to the table; a user is known for every row's email. */
  function Pairs(keys: seq<(string, int)>, owner: string -> Option<int>): seq<(int, int)> {
    if keys == [] then []
    else
      var before := Pairs(keys[..|keys| - 1], owner);
      var last := keys[|keys| - 1];
      if owner(last.0).None? then before else before + [(owner(last.0).value, last.1)]
  }

  /** Conflicts are ignored: only pairs the table did not hold count as new. */
  function Fresh(pairs: seq<(int, int)>, enrolled: set<(int, int)>): seq<(int, int)> {
    if pairs == [] then []
    else
      var before := Fresh(pairs[..|pairs| - 1], enrolled);
      var last := pairs[|pairs| - 1];
      if last in enrolled then before else before + [last]
  }

  function Members<A>(s: seq<A>): set<A> { set x | x in s }

  function CreatedIds(db: Db, rows: seq<Prepared>, owner: string -> Option<int>): seq<int> {
    if rows == [] then []
    else
      var before := CreatedIds(db, rows[..|rows| - 1], owner);
      var last := rows[|rows| - 1];
      if Target(db, last).None? && owner(last.email).Some? then before + [owner(last.email).value] else before
  }

  function NewCount(db: Db, rows: seq<Prepared>): nat {
    if rows == [] then 0
    else NewCount(db, rows[..|rows| - 1]) + if Target(db, rows[|rows| - 1]).None? then 1 else 0
  }

  // ---------------------------------------------------------------------------------------
  // The commit

  function Inserted(db: Db, rows: seq<Prepared>, codes: nat -> Value): Db
    requires Valid(db)
  {
    InsertAll(db, PlanRows(db, rows, codes).creations)
  }

  function OwnerAfter(db: Db, rows: seq<Prepared>, codes: nat -> Value): string -> Option<int>
    requires Valid(db)
  {
    var emails := Inserted(db, rows, codes).emails;
    email => Owner(db, emails, rows, email)
  }

  function NewPairs(db: Db, rows: seq<Prepared>, codes: nat -> Value): seq<(int, int)>
    requires Valid(db)
  {
    Pairs(EnrolKeys(db, rows), OwnerAfter(db, rows, codes))
  }

  function Committed(db: Db, rows: seq<Prepared>, codes: nat -> Value): Db
    requires Valid(db)
  {
    var plan, inserted := PlanRows(db, rows, codes), Inserted(db, rows, codes);
    var pairs := NewPairs(db, rows, codes);
    inserted.(users := inserted.users + plan.loaded,
              enrolled := db.enrolled + Members(pairs),
              joined := db.joined + Fresh(pairs, db.enrolled))
  }

  function ReportOf(db: Db, rows: seq<Prepared>, codes: nat -> Value): Report
    requires Valid(db)
  {
    Report(NewCount(db, rows),
           UpdatedCount(db, rows, codes),
           |Fresh(NewPairs(db, rows, codes), db.enrolled)|,
           CreatedIds(db, rows, OwnerAfter(db, rows, codes)))
  }

  /** None when the import raised and was rolled back. */
  function Commit(db: Db, rows: seq<Prepared>, codes: nat -> Value): (Db, Option<Report>)
    requires Valid(db)
  {
    if Repeated(PlanRows(db, rows, codes).creations) then (db, None)
    else (Committed(db, rows, codes), Some(ReportOf(db, rows, codes)))
  }
}
