/** The import as it updates the tables, step by step. */
module ImportStore {
  import opened Wrappers
  import opened ImportRows
  import opened ImportCommit
  import ImportSafety

  /** Users found by matched id and users found by email are loaded separately, as two copies.
      The loop below keeps one copy of each user, so no user may be found both ways. */
  ghost predicate LoadedOnce(db: Db, rows: seq<Prepared>) {
    forall i, j :: 0 <= i < |rows| && 0 <= j < |rows| && ById(db, rows[i]).Some? && ById(db, rows[j]).None? ==>
      Target(db, rows[j]) != ById(db, rows[i])
  }

  method FillUser(user: User, p: Prepared) returns (filled: User, changed: bool)
    ensures filled == FilledUser(user, p)
    ensures changed == Fills(user, p)
    ensures !changed ==> filled == user
  {
    var fields, one := FillBlanks(user.fields, Incoming(p));
    var custom, other := FillBlanks(user.custom, p.custom);
    filled, changed := user.(fields := fields, custom := custom), one || other;
    if !changed {
      ImportSafety.NotFillingKeeps(user, p);
    }
  }

  /** The plan for the rows so far, with the ids of the users that a row changed. */
  ghost predicate Planned(db: Db, rows: seq<Prepared>, codes: nat -> Value,
                          toCreate: seq<User>, loaded: map<int, User>, toUpdate: seq<int>)
    requires Valid(db)
  {
    && PlanRows(db, rows, codes) == Plan(toCreate, loaded)
    && |toUpdate| == UpdatedCount(db, rows, codes)
    && |toCreate| == NewCount(db, rows)
    && loaded.Keys <= db.users.Keys
    && (forall id :: id in toUpdate ==> id in loaded)
    && (forall id :: id in loaded && id !in toUpdate ==> loaded[id] == db.users[id])
  }

  method PlanImport(db: Db, rows: seq<Prepared>, codes: nat -> Value)
    returns (toCreate: seq<User>, loaded: map<int, User>, toUpdate: seq<int>)
    requires Valid(db)
    ensures Planned(db, rows, codes, toCreate, loaded, toUpdate)
  {
    toCreate, loaded, toUpdate := [], map[], [];
    for i := 0 to |rows|
      invariant Planned(db, rows[..i], codes, toCreate, loaded, toUpdate)
    {
      assert rows[..i + 1][..i] == rows[..i];
      var p := rows[i];
      var current := Target(db, p);
      if current.None? {
        toCreate := toCreate + [NewUser(p, codes(i))];
      } else {
        var id := current.value;
        var user, changed := FillUser(Loaded(db, loaded, id), p);
        loaded := loaded[id := user];
        if changed {
          toUpdate := toUpdate + [id];
        }
      }
    }
    assert rows[..|rows|] == rows;
  }

  /** The last row matched by id decides whom an email stands for. */
  method FindOwners(db: Db, emails: map<string, int>, rows: seq<Prepared>) returns (owners: map<string, int>)
    ensures forall i :: 0 <= i < |rows| ==> LookUp(owners, rows[i].email) == Owner(db, emails, rows, rows[i].email)
  {
    owners := emails;
    for i := 0 to |rows|
      invariant forall email :: LookUp(owners, email) == Owner(db, emails, rows[..i], email)
    {
      assert rows[..i + 1][..i] == rows[..i];
      var matched := ById(db, rows[i]);
      if matched.Some? {
        owners := owners[rows[i].email := matched.value];
      }
    }
    assert rows[..|rows|] == rows;
  }

  function LookUp(owners: map<string, int>, email: string): Option<int> {
    if email in owners then Some(owners[email]) else None
  }

  lemma PairsExtend(keys: seq<(string, int)>, key: (string, int), owner: string -> Option<int>)
    ensures Pairs(keys + [key], owner)
         == Pairs(keys, owner) + if owner(key.0).Some? then [(owner(key.0).value, key.1)] else []
  {
  }

  /** The new enrolments of one row. */
  method EnrolRow(db: Db, p: Prepared, user: int, seen: seq<(string, int)>, pairs: seq<(int, int)>,
                  ghost owner: string -> Option<int>)
    returns (seenAfter: seq<(string, int)>, pairsAfter: seq<(int, int)>)
    requires owner(p.email) == Some(user) && pairs == Pairs(seen, owner)
    ensures seenAfter == RowKeys(db, seen, p.email, p.courses)
    ensures pairsAfter == Pairs(seenAfter, owner)
  {
    seenAfter, pairsAfter := seen, pairs;
    for j := 0 to |p.courses|
      invariant seenAfter == RowKeys(db, seen, p.email, p.courses[..j])
      invariant pairsAfter == Pairs(seenAfter, owner)
    {
      assert p.courses[..j + 1][..j] == p.courses[..j];
      var course := p.courses[j];
      if course in db.courses {
        var key := (p.email, course);
        if !(key in seenAfter || AlreadyIn(db, p.email, course)) {
          PairsExtend(seenAfter, key, owner);
          seenAfter := seenAfter + [key];
          pairsAfter := pairsAfter + [(user, course)];
        }
      }
    }
    assert p.courses[..|p.courses|] == p.courses;
  }

  /** The enrolments to insert, row by row. */
  method CollectEnrolments(db: Db, rows: seq<Prepared>, owners: map<string, int>, ghost owner: string -> Option<int>)
    returns (pairs: seq<(int, int)>)
    requires forall i | 0 <= i < |rows| ::
               LookUp(owners, rows[i].email) == owner(rows[i].email) && owner(rows[i].email).Some?
    ensures pairs == Pairs(EnrolKeys(db, rows), owner)
  {
    var seen: seq<(string, int)> := [];
    pairs := [];
    for i := 0 to |rows|
      invariant seen == EnrolKeys(db, rows[..i])
      invariant pairs == Pairs(seen, owner)
    {
      assert rows[..i + 1][..i] == rows[..i];
      assert LookUp(owners, rows[i].email) == owner(rows[i].email);
      seen, pairs := EnrolRow(db, rows[i], owners[rows[i].email], seen, pairs, owner);
    }
    assert rows[..|rows|] == rows;
  }

  method CollectCreatedIds(db: Db, rows: seq<Prepared>, owners: map<string, int>, ghost owner: string -> Option<int>)
    returns (ids: seq<int>)
    requires forall i :: 0 <= i < |rows| ==> LookUp(owners, rows[i].email) == owner(rows[i].email)
    ensures ids == CreatedIds(db, rows, owner)
  {
    ids := [];
    for i := 0 to |rows|
      invariant ids == CreatedIds(db, rows[..i], owner)
    {
      assert rows[..i + 1][..i] == rows[..i];
      assert LookUp(owners, rows[i].email) == owner(rows[i].email);
      if Target(db, rows[i]).None? && rows[i].email in owners {
        ids := ids + [owners[rows[i].email]];
      }
    }
    assert rows[..|rows|] == rows;
  }

  /** Every row's email stands for somebody once the new users are in. */
  lemma {:induction false} EveryRowHasAnOwner(db: Db, rows: seq<Prepared>, codes: nat -> Value, i: nat)
    requires Valid(db) && i < |rows| && !Repeated(PlanRows(db, rows, codes).creations)
    ensures OwnerAfter(db, rows, codes)(rows[i].email).Some?
  {
    var emails := Inserted(db, rows, codes).emails;
    if ById(db, rows[i]).Some? {
      SomeMatchOwns(db, emails, rows, i);
    } else {
      if Target(db, rows[i]).None? {
        ImportSafety.PlanHoldsNew(db, rows, codes, i);
        ImportSafety.InsertPutsEmail(db, PlanRows(db, rows, codes).creations, NewCount(db, rows[..i]));
      } else {
        ImportSafety.KnownEmailAfter(db, rows, codes, rows[i].email);
      }
      IndexOwns(db, emails, rows, rows[i].email);
    }
  }

  lemma {:induction false} SomeMatchOwns(db: Db, emails: map<string, int>, rows: seq<Prepared>, i: nat)
    requires i < |rows| && ById(db, rows[i]).Some?
    ensures Owner(db, emails, rows, rows[i].email).Some?
  {
    var n := |rows| - 1;
    if i < n {
      assert rows[..n][i] == rows[i];
      SomeMatchOwns(db, emails, rows[..n], i);
    }
  }

  lemma {:induction false} IndexOwns(db: Db, emails: map<string, int>, rows: seq<Prepared>, email: string)
    requires email in emails
    ensures Owner(db, emails, rows, email).Some?
  {
    if rows != [] {
      IndexOwns(db, emails, rows[..|rows| - 1], email);
    }
  }

  /** The tables once users are created and filled, before anybody is enrolled. */
  ghost function WithUsers(db: Db, rows: seq<Prepared>, codes: nat -> Value): Db
    requires Valid(db)
  {
    var inserted := Inserted(db, rows, codes);
    inserted.(users := inserted.users + PlanRows(db, rows, codes).loaded)
  }

  class Store {
    var users: map<int, User>
    var emails: map<string, int>
    var nextId: int
    var courses: set<int>
    var enrolled: set<(int, int)>
    var joined: seq<(int, int)>

    function View(): Db
      reads this
    {
      Db(users, emails, nextId, courses, enrolled, joined)
    }

    constructor (courses: set<int>)
      ensures View() == Db(map[], map[], 1, courses, {}, []) && Valid(View())
    {
      users, emails, nextId, this.courses, enrolled, joined := map[], map[], 1, courses, {}, [];
    }

    method CreateUsers(toCreate: seq<User>)
      modifies this`users, this`emails, this`nextId
      ensures View() == InsertAll(old(View()), toCreate)
    {
      for k := 0 to |toCreate|
        invariant View() == InsertAll(old(View()), toCreate[..k])
      {
        assert toCreate[..k + 1][..k] == toCreate[..k];
        users := users[nextId := toCreate[k]];
        emails := emails[toCreate[k].email := nextId];
        nextId := nextId + 1;
      }
      assert toCreate[..|toCreate|] == toCreate;
    }

    /** Users that no row changed are not written; writing them would change nothing. */
    method UpdateUsers(loaded: map<int, User>, toUpdate: seq<int>)
      requires loaded.Keys <= users.Keys
      requires forall id :: id in toUpdate ==> id in loaded
      requires forall id :: id in loaded && id !in toUpdate ==> loaded[id] == users[id]
      modifies this`users
      ensures users == old(users) + loaded
    {
      for k := 0 to |toUpdate|
        invariant users.Keys == old(users).Keys
        invariant forall id :: id in users ==> users[id] == if id in toUpdate[..k] then loaded[id] else old(users)[id]
      {
        var id := toUpdate[k];
        assert id in toUpdate;
        users := users[id := loaded[id]];
        assert toUpdate[..k + 1] == toUpdate[..k] + [id];
      }
      assert toUpdate[..|toUpdate|] == toUpdate;
      ghost var overlaid := old(users) + loaded;
      assert overlaid.Keys == users.Keys;
      forall id | id in users ensures users[id] == overlaid[id] {
      }
    }

    /** Inserting ignores conflicts; only pairs that were not there are recorded as joined. */
    method EnrolAll(pairs: seq<(int, int)>) returns (count: nat)
      modifies this`enrolled, this`joined
      ensures enrolled == old(enrolled) + Members(pairs)
      ensures joined == old(joined) + Fresh(pairs, old(enrolled))
      ensures count == |Fresh(pairs, old(enrolled))|
    {
      var before := enrolled;
      enrolled := enrolled + Members(pairs);
      var created := enrolled - before;
      count := 0;
      for k := 0 to |pairs|
        invariant enrolled == before + Members(pairs)
        invariant joined == old(joined) + Fresh(pairs[..k], before)
        invariant count == |Fresh(pairs[..k], before)|
      {
        assert pairs[..k + 1][..k] == pairs[..k];
        if pairs[k] in created {
          joined := joined + [pairs[k]];
          count := count + 1;
        }
      }
      assert pairs[..|pairs|] == pairs;
    }

    /** The users the rows create and fill. */
    method WriteUsers(toCreate: seq<User>, loaded: map<int, User>, toUpdate: seq<int>,
                      ghost rows: seq<Prepared>, ghost codes: nat -> Value)
      requires Valid(View()) && Planned(View(), rows, codes, toCreate, loaded, toUpdate)
      modifies this`users, this`emails, this`nextId
      ensures View() == WithUsers(old(View()), rows, codes)
    {
      ghost var before := View();
      ImportSafety.InsertShape(before, toCreate);
      forall id | id in loaded ensures id in Inserted(before, rows, codes).users
                                       && Inserted(before, rows, codes).users[id] == before.users[id] {
        ImportSafety.InsertKeepsUser(before, toCreate, id);
      }
      CreateUsers(toCreate);
      UpdateUsers(loaded, toUpdate);
    }

    /** The enrolments the rows ask for, and the ids of the users they created. */
    method WriteEnrolments(before: Db, rows: seq<Prepared>, ghost codes: nat -> Value)
      returns (enrolments: nat, ids: seq<int>)
      requires Valid(before) && !Repeated(PlanRows(before, rows, codes).creations)
      requires View() == WithUsers(before, rows, codes) && enrolled == before.enrolled && joined == before.joined
      modifies this`enrolled, this`joined
      ensures View() == Committed(before, rows, codes)
      ensures enrolments == |Fresh(NewPairs(before, rows, codes), before.enrolled)|
      ensures ids == CreatedIds(before, rows, OwnerAfter(before, rows, codes))
    {
      ghost var owner := OwnerAfter(before, rows, codes);
      var owners := FindOwners(before, emails, rows);
      forall i | 0 <= i < |rows|
        ensures LookUp(owners, rows[i].email) == owner(rows[i].email) && owner(rows[i].email).Some?
      {
        EveryRowHasAnOwner(before, rows, codes, i);
      }
      var pairs := CollectEnrolments(before, rows, owners, owner);
      enrolments := EnrolAll(pairs);
      ids := CollectCreatedIds(before, rows, owners, owner);
    }

    method CommitImport(rows: seq<Prepared>, codes: nat -> Value) returns (report: Option<Report>)
      requires Valid(View()) && LoadedOnce(View(), rows)
      modifies this
      ensures (View(), report) == Commit(old(View()), rows, codes)
    {
      // Users, courses and enrolments as they are before anything is written.
      var before := View();
      var toCreate, loaded, toUpdate := PlanImport(before, rows, codes);
      if Repeated(toCreate) {
        return None;
      }
      ImportSafety.InsertShape(before, toCreate);
      WriteUsers(toCreate, loaded, toUpdate, rows, codes);
      var enrolments, ids := WriteEnrolments(before, rows, codes);
      report := Some(Report(|toCreate|, |toUpdate|, enrolments, ids));
    }
  }
}
