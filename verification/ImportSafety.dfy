/** What an import keeps, creates and records, and what committing it again does. */
module ImportSafety {
  import opened Wrappers
  import opened ImportRows
  import opened ImportCommit

  // ---------------------------------------------------------------------------------------
  // Filling never overwrites

  ghost predicate Extends(before: Fields, after: Fields) {
    forall key :: !Blank(Get(before, key)) ==> Get(after, key) == Get(before, key)
  }

  ghost predicate UserExtends(before: User, after: User) {
    after.email == before.email && Extends(before.fields, after.fields) && Extends(before.custom, after.custom)
  }

  lemma FilledExtends(into: Fields, from: Fields)
    ensures Extends(into, Filled(into, from))
  {
  }

  lemma FillingTwice(into: Fields, from: Fields)
    ensures Filled(Filled(into, from), from) == Filled(into, from)
  {
  }

  lemma FilledUserFacts(user: User, p: Prepared)
    ensures UserExtends(user, FilledUser(user, p))
    ensures FilledUser(FilledUser(user, p), p) == FilledUser(user, p)
  {
    FilledExtends(user.fields, Incoming(p));
    FilledExtends(user.custom, p.custom);
    FillingTwice(user.fields, Incoming(p));
    FillingTwice(user.custom, p.custom);
  }

  lemma NewUserIsFull(p: Prepared, code: Value)
    ensures FilledUser(NewUser(p, code), p) == NewUser(p, code)
  {
  }

  lemma {:induction false} PlanExtends(db: Db, rows: seq<Prepared>, codes: nat -> Value, id: int)
    requires Valid(db) && id in db.users
    ensures UserExtends(db.users[id], Loaded(db, PlanRows(db, rows, codes).loaded, id))
  {
    if rows != [] {
      var n := |rows| - 1;
      var before := PlanRows(db, rows[..n], codes);
      PlanExtends(db, rows[..n], codes, id);
      FilledUserFacts(Loaded(db, before.loaded, id), rows[n]);
    }
  }

  lemma {:induction false} PlanLoadsStored(db: Db, rows: seq<Prepared>, codes: nat -> Value)
    requires Valid(db)
    ensures PlanRows(db, rows, codes).loaded.Keys <= db.users.Keys
    ensures |PlanRows(db, rows, codes).creations| == NewCount(db, rows)
  {
    if rows != [] {
      PlanLoadsStored(db, rows[..|rows| - 1], codes);
    }
  }

  lemma {:induction false} CreationsAreUnknown(db: Db, rows: seq<Prepared>, codes: nat -> Value, k: nat)
    requires Valid(db) && k < |PlanRows(db, rows, codes).creations|
    ensures PlanRows(db, rows, codes).creations[k].email !in db.emails
  {
    var n := |rows| - 1;
    if k < |PlanRows(db, rows[..n], codes).creations| {
      CreationsAreUnknown(db, rows[..n], codes, k);
    }
  }

  // ---------------------------------------------------------------------------------------
  // Inserting

  lemma {:induction false} InsertShape(db: Db, creations: seq<User>)
    ensures var after := InsertAll(db, creations);
            && after.nextId == db.nextId + |creations|
            && after.courses == db.courses && after.enrolled == db.enrolled && after.joined == db.joined
            && (forall id :: id in after.users <==> id in db.users || db.nextId <= id < after.nextId)
  {
    if creations != [] {
      InsertShape(db, creations[..|creations| - 1]);
    }
  }

  lemma {:induction false} InsertKeepsUser(db: Db, creations: seq<User>, id: int)
    requires id in db.users && id < db.nextId
    ensures id in InsertAll(db, creations).users && InsertAll(db, creations).users[id] == db.users[id]
  {
    if creations != [] {
      InsertKeepsUser(db, creations[..|creations| - 1], id);
      InsertShape(db, creations[..|creations| - 1]);
    }
  }

  lemma {:induction false} InsertPutsUser(db: Db, creations: seq<User>, k: nat)
    requires k < |creations|
    ensures var after := InsertAll(db, creations).users;
            db.nextId + k in after && after[db.nextId + k] == creations[k]
  {
    var n := |creations| - 1;
    InsertShape(db, creations[..n]);
    if k < n {
      InsertPutsUser(db, creations[..n], k);
    }
  }

  /** Only a new user's email changes its entry in the index. */
  lemma {:induction false} InsertKeepsEmail(db: Db, creations: seq<User>, email: string)
    requires forall k :: 0 <= k < |creations| ==> creations[k].email != email
    ensures email in InsertAll(db, creations).emails <==> email in db.emails
    ensures email in db.emails ==> InsertAll(db, creations).emails[email] == db.emails[email]
  {
    if creations != [] {
      var n := |creations| - 1;
      assert forall k :: 0 <= k < n ==> creations[..n][k] == creations[k];
      InsertKeepsEmail(db, creations[..n], email);
    }
  }

  lemma {:induction false} InsertPutsEmail(db: Db, creations: seq<User>, k: nat)
    requires k < |creations| && !Repeated(creations)
    ensures var after := InsertAll(db, creations).emails;
            creations[k].email in after && after[creations[k].email] == db.nextId + k
  {
    var n := |creations| - 1;
    InsertShape(db, creations[..n]);
    if k < n {
      InsertPutsEmail(db, creations[..n], k);
      assert creations[k].email != creations[n].email;
    }
  }

  lemma InsertOneStaysValid(db: Db, user: User)
    requires Valid(db) && user.email !in db.emails && db.nextId !in db.users
    ensures Valid(db.(users := db.users[db.nextId := user],
                      emails := db.emails[user.email := db.nextId],
                      nextId := db.nextId + 1))
  {
  }

  lemma {:induction false} InsertStaysValid(db: Db, creations: seq<User>)
    requires Valid(db) && !Repeated(creations)
    requires forall k :: 0 <= k < |creations| ==> creations[k].email !in db.emails
    ensures Valid(InsertAll(db, creations))
  {
    if creations != [] {
      var n := |creations| - 1;
      var before := InsertAll(db, creations[..n]);
      InsertStaysValid(db, creations[..n]);
      InsertShape(db, creations[..n]);
      assert forall k :: 0 <= k < n ==> creations[..n][k].email != creations[n].email;
      InsertKeepsEmail(db, creations[..n], creations[n].email);
      InsertOneStaysValid(before, creations[n]);
    }
  }

  /** Filling users keeps their emails, and so the index. */
  lemma LoadedStaysValid(db: Db, loaded: map<int, User>)
    requires Valid(db) && loaded.Keys <= db.users.Keys
    requires forall id :: id in loaded ==> loaded[id].email == db.users[id].email
    ensures Valid(db.(users := db.users + loaded))
  {
    var after := db.users + loaded;
    forall id | id in after ensures id in db.users && after[id].email == db.users[id].email {
    }
    forall email | email in db.emails ensures db.emails[email] in after && after[db.emails[email]].email == email {
      var id := db.emails[email];
      assert id in db.users && id in after;
    }
  }

  // ---------------------------------------------------------------------------------------
  // Single users after a commit

  lemma StoredUserAfter(db: Db, rows: seq<Prepared>, codes: nat -> Value, id: int)
    requires Valid(db) && id in db.users
    ensures id in Committed(db, rows, codes).users
    ensures Committed(db, rows, codes).users[id] == Loaded(db, PlanRows(db, rows, codes).loaded, id)
  {
    InsertKeepsUser(db, PlanRows(db, rows, codes).creations, id);
  }

  lemma NewUserAfter(db: Db, rows: seq<Prepared>, codes: nat -> Value, k: nat)
    requires Valid(db) && k < |PlanRows(db, rows, codes).creations|
    ensures db.nextId + k in Committed(db, rows, codes).users
    ensures Committed(db, rows, codes).users[db.nextId + k] == PlanRows(db, rows, codes).creations[k]
  {
    PlanLoadsStored(db, rows, codes);
    InsertPutsUser(db, PlanRows(db, rows, codes).creations, k);
  }

  /** An import never changes the email of a stored user, nor any field or custom field that
      holds a value. */
  lemma NothingIsOverwritten(db: Db, rows: seq<Prepared>, codes: nat -> Value, id: int)
    requires Valid(db) && id in db.users
    ensures var after := Commit(db, rows, codes).0;
            id in after.users && UserExtends(db.users[id], after.users[id])
  {
    StoredUserAfter(db, rows, codes, id);
    PlanExtends(db, rows, codes, id);
  }

  lemma InsertedIsValid(db: Db, rows: seq<Prepared>, codes: nat -> Value)
    requires Valid(db) && !Repeated(PlanRows(db, rows, codes).creations)
    ensures Valid(Inserted(db, rows, codes))
  {
    var creations := PlanRows(db, rows, codes).creations;
    forall k | 0 <= k < |creations| ensures creations[k].email !in db.emails {
      CreationsAreUnknown(db, rows, codes, k);
    }
    InsertStaysValid(db, creations);
  }

  lemma CommitStaysValid(db: Db, rows: seq<Prepared>, codes: nat -> Value)
    requires Valid(db)
    ensures Valid(Commit(db, rows, codes).0)
  {
    var plan := PlanRows(db, rows, codes);
    if !Repeated(plan.creations) {
      InsertedIsValid(db, rows, codes);
      PlanLoadsStored(db, rows, codes);
      InsertShape(db, plan.creations);
      var inserted := Inserted(db, rows, codes);
      forall id | id in plan.loaded ensures plan.loaded[id].email == inserted.users[id].email {
        PlanExtends(db, rows, codes, id);
        InsertKeepsUser(db, plan.creations, id);
      }
      assert forall id :: id in plan.loaded.Keys ==> id in inserted.users;
      LoadedStaysValid(inserted, plan.loaded);
    }
  }

  // ---------------------------------------------------------------------------------------
  // Rows that resolve to distinct users

  ghost predicate DistinctTargets(db: Db, rows: seq<Prepared>) {
    forall i, j :: 0 <= i < j < |rows| ==>
      && rows[i].email != rows[j].email
      && (Target(db, rows[i]).Some? ==> Target(db, rows[i]) != Target(db, rows[j]))
  }

  lemma OtherEmails(db: Db, rows: seq<Prepared>, i: nat, k: nat)
    requires DistinctTargets(db, rows) && i < |rows| && k < |rows| && i != k
    ensures rows[i].email != rows[k].email
  {
  }

  /** The user a row ends up as: the stored one, or the next id counting the new rows before. */
  function IdOf(db: Db, rows: seq<Prepared>, i: nat): int
    requires i < |rows|
  {
    var target := Target(db, rows[i]);
    if target.Some? then target.value else db.nextId + NewCount(db, rows[..i])
  }

  lemma {:induction false} NewCountGrows(db: Db, rows: seq<Prepared>, i: nat, j: nat)
    requires i <= j <= |rows|
    ensures NewCount(db, rows[..i]) <= NewCount(db, rows[..j])
    ensures i < j && Target(db, rows[i]).None? ==> NewCount(db, rows[..i]) < NewCount(db, rows[..j])
    decreases j
  {
    if i < j {
      assert rows[..j][..j - 1] == rows[..j - 1];
      NewCountGrows(db, rows, i, j - 1);
    }
  }

  lemma IdsDiffer(db: Db, rows: seq<Prepared>, i: nat, j: nat)
    requires Valid(db) && DistinctTargets(db, rows) && i < j < |rows|
    ensures IdOf(db, rows, i) != IdOf(db, rows, j)
  {
    NewCountGrows(db, rows, i, j);
  }

  /** A user no row resolves to is not loaded. */
  lemma {:induction false} UntouchedSoFar(db: Db, rows: seq<Prepared>, codes: nat -> Value, id: int)
    requires Valid(db) && forall i :: 0 <= i < |rows| ==> Target(db, rows[i]) != Some(id)
    ensures id !in PlanRows(db, rows, codes).loaded
  {
    if rows != [] {
      UntouchedSoFar(db, rows[..|rows| - 1], codes, id);
    }
  }

  lemma PlanOneAt(db: Db, plan: Plan, p: Prepared, code: Value, id: int)
    requires Valid(db) && id in db.users
    ensures Loaded(db, PlanOne(db, plan, p, code).loaded, id)
         == if Target(db, p) == Some(id) then FilledUser(Loaded(db, plan.loaded, id), p)
            else Loaded(db, plan.loaded, id)
  {
  }

  lemma DistinctPrefix(db: Db, rows: seq<Prepared>, n: nat)
    requires DistinctTargets(db, rows) && n <= |rows|
    ensures DistinctTargets(db, rows[..n])
  {
  }

  lemma {:induction false} PlanHoldsStored(db: Db, rows: seq<Prepared>, codes: nat -> Value, i: nat, id: int)
    requires Valid(db) && DistinctTargets(db, rows) && i < |rows| && Target(db, rows[i]) == Some(id)
    ensures Loaded(db, PlanRows(db, rows, codes).loaded, id) == FilledUser(db.users[id], rows[i])
  {
    var n := |rows| - 1;
    var before := PlanRows(db, rows[..n], codes);
    PlanOneAt(db, before, rows[n], codes(n), id);
    if i < n {
      assert Target(db, rows[n]) != Some(id);
      DistinctPrefix(db, rows, n);
      PlanHoldsStored(db, rows[..n], codes, i, id);
    } else {
      forall k | 0 <= k < n ensures Target(db, rows[..n][k]) != Some(id) {
        assert rows[..n][k] == rows[k];
      }
      UntouchedSoFar(db, rows[..n], codes, id);
    }
  }

  lemma {:induction false} PlanHoldsNew(db: Db, rows: seq<Prepared>, codes: nat -> Value, i: nat)
    requires Valid(db) && i < |rows| && Target(db, rows[i]).None?
    ensures var creations, k := PlanRows(db, rows, codes).creations, NewCount(db, rows[..i]);
            k < |creations| && creations[k] == NewUser(rows[i], codes(i))
  {
    var n := |rows| - 1;
    PlanLoadsStored(db, rows[..n], codes);
    if i < n {
      assert rows[..n][i] == rows[i] && rows[..n][..i] == rows[..i];
      PlanHoldsNew(db, rows[..n], codes, i);
    }
  }

  lemma {:induction false} CreationComesFromRow(db: Db, rows: seq<Prepared>, codes: nat -> Value, k: nat)
    returns (i: nat)
    requires Valid(db) && k < |PlanRows(db, rows, codes).creations|
    ensures i < |rows| && rows[i].email == PlanRows(db, rows, codes).creations[k].email
  {
    var n := |rows| - 1;
    if k < |PlanRows(db, rows[..n], codes).creations| {
      i := CreationComesFromRow(db, rows[..n], codes, k);
    } else {
      i := n;
    }
  }

  lemma {:induction false} CreationsAreNotRepeated(db: Db, rows: seq<Prepared>, codes: nat -> Value)
    requires Valid(db) && DistinctTargets(db, rows)
    ensures !Repeated(PlanRows(db, rows, codes).creations)
  {
    if rows != [] {
      var n := |rows| - 1;
      CreationsAreNotRepeated(db, rows[..n], codes);
      var before := PlanRows(db, rows[..n], codes).creations;
      forall k | 0 <= k < |before| ensures before[k].email != rows[n].email {
        var i := CreationComesFromRow(db, rows[..n], codes, k);
        assert rows[i].email != rows[n].email;
      }
    }
  }

  /** With distinct targets nothing is rolled back, and each row's user holds what the row says. */
  lemma RowsReachTheirUsers(db: Db, rows: seq<Prepared>, codes: nat -> Value, i: nat)
    requires Valid(db) && DistinctTargets(db, rows) && i < |rows|
    ensures Commit(db, rows, codes).1.Some?
    ensures var after, id := Commit(db, rows, codes).0, IdOf(db, rows, i);
            && id in after.users
            && FilledUser(after.users[id], rows[i]) == after.users[id]
            && after.users[id] ==
                (if id in db.users then FilledUser(db.users[id], rows[i]) else NewUser(rows[i], codes(i)))
  {
    CreationsAreNotRepeated(db, rows, codes);
    if Target(db, rows[i]).Some? {
      StoredRowReachesItsUser(db, rows, codes, i);
    } else {
      NewRowReachesItsUser(db, rows, codes, i);
    }
  }

  lemma StoredRowReachesItsUser(db: Db, rows: seq<Prepared>, codes: nat -> Value, i: nat)
    requires Valid(db) && DistinctTargets(db, rows) && i < |rows| && Target(db, rows[i]).Some?
    ensures var after, id := Committed(db, rows, codes), IdOf(db, rows, i);
            && id in db.users && id in after.users
            && after.users[id] == FilledUser(db.users[id], rows[i])
            && FilledUser(after.users[id], rows[i]) == after.users[id]
  {
    var id := IdOf(db, rows, i);
    StoredUserAfter(db, rows, codes, id);
    PlanHoldsStored(db, rows, codes, i, id);
    FilledUserFacts(db.users[id], rows[i]);
  }

  lemma NewRowReachesItsUser(db: Db, rows: seq<Prepared>, codes: nat -> Value, i: nat)
    requires Valid(db) && i < |rows| && Target(db, rows[i]).None?
    ensures var after, id := Committed(db, rows, codes), IdOf(db, rows, i);
            && id !in db.users && id in after.users
            && after.users[id] == NewUser(rows[i], codes(i))
            && FilledUser(after.users[id], rows[i]) == after.users[id]
  {
    PlanHoldsNew(db, rows, codes, i);
    NewUserAfter(db, rows, codes, NewCount(db, rows[..i]));
    NewUserIsFull(rows[i], codes(i));
  }

  lemma {:induction false} OwnerWithoutMatch(db: Db, emails: map<string, int>, rows: seq<Prepared>, email: string)
    requires forall k :: 0 <= k < |rows| ==> rows[k].email != email || ById(db, rows[k]).None?
    ensures Owner(db, emails, rows, email) == if email in emails then Some(emails[email]) else None
  {
    if rows != [] {
      OwnerWithoutMatch(db, emails, rows[..|rows| - 1], email);
    }
  }

  lemma {:induction false} OwnerWithMatch(db: Db, emails: map<string, int>, rows: seq<Prepared>, i: nat)
    requires i < |rows| && ById(db, rows[i]).Some?
    requires forall k :: 0 <= k < |rows| && k != i ==> rows[k].email != rows[i].email
    ensures Owner(db, emails, rows, rows[i].email) == ById(db, rows[i])
  {
    var n := |rows| - 1;
    if i < n {
      assert rows[..n][i] == rows[i];
      OwnerWithMatch(db, emails, rows[..n], i);
    }
  }

  /** The index entry of a new user's email once the new users are inserted. */
  lemma NewEmailAfter(db: Db, rows: seq<Prepared>, codes: nat -> Value, i: nat)
    requires Valid(db) && DistinctTargets(db, rows) && i < |rows| && Target(db, rows[i]).None?
    ensures var emails := Inserted(db, rows, codes).emails;
            rows[i].email in emails && emails[rows[i].email] == IdOf(db, rows, i)
  {
    CreationsAreNotRepeated(db, rows, codes);
    PlanHoldsNew(db, rows, codes, i);
    InsertPutsEmail(db, PlanRows(db, rows, codes).creations, NewCount(db, rows[..i]));
  }

  lemma KnownEmailAfter(db: Db, rows: seq<Prepared>, codes: nat -> Value, email: string)
    requires Valid(db) && email in db.emails
    ensures var emails := Inserted(db, rows, codes).emails; email in emails && emails[email] == db.emails[email]
  {
    var creations := PlanRows(db, rows, codes).creations;
    forall k | 0 <= k < |creations| ensures creations[k].email != email {
      CreationsAreUnknown(db, rows, codes, k);
    }
    InsertKeepsEmail(db, creations, email);
  }

  lemma RowEmailAfter(db: Db, rows: seq<Prepared>, codes: nat -> Value, i: nat)
    requires Valid(db) && DistinctTargets(db, rows) && i < |rows|
    ensures ById(db, rows[i]).None? ==>
              var emails := Inserted(db, rows, codes).emails;
              rows[i].email in emails && emails[rows[i].email] == IdOf(db, rows, i)
  {
    if Target(db, rows[i]).None? {
      NewEmailAfter(db, rows, codes, i);
    } else if ById(db, rows[i]).None? {
      KnownEmailAfter(db, rows, codes, rows[i].email);
    }
  }

  lemma OwnerOfRow(db: Db, rows: seq<Prepared>, codes: nat -> Value, i: nat)
    requires Valid(db) && DistinctTargets(db, rows) && i < |rows|
    ensures OwnerAfter(db, rows, codes)(rows[i].email) == Some(IdOf(db, rows, i))
  {
    var emails := Inserted(db, rows, codes).emails;
    RowEmailAfter(db, rows, codes, i);
    forall k | 0 <= k < |rows| && k != i ensures rows[k].email != rows[i].email {
      OtherEmails(db, rows, i, k);
    }
    if ById(db, rows[i]).Some? {
      OwnerWithMatch(db, emails, rows, i);
    } else {
      OwnerWithoutMatch(db, emails, rows, rows[i].email);
    }
  }

  // ---------------------------------------------------------------------------------------
  // Enrolments

  /** Row i asks for a course that exists and that the holder of its email was not in. */
  predicate Wants(db: Db, rows: seq<Prepared>, i: nat, course: int)
    requires i < |rows|
  {
    course in rows[i].courses && course in db.courses && !AlreadyIn(db, rows[i].email, course)
  }

  lemma {:induction false} RowKeysFacts(db: Db, keys: seq<(string, int)>, email: string, courses: seq<int>)
    requires Distinct(keys)
    ensures Distinct(RowKeys(db, keys, email, courses))
    ensures forall key :: key in RowKeys(db, keys, email, courses) <==>
              key in keys || (key.0 == email && key.1 in courses && key.1 in db.courses && !AlreadyIn(db, email, key.1))
  {
    if courses != [] {
      RowKeysFacts(db, keys, email, courses[..|courses| - 1]);
    }
  }

  lemma {:induction false} EnrolKeysFacts(db: Db, rows: seq<Prepared>)
    ensures Distinct(EnrolKeys(db, rows))
    ensures forall key :: key in EnrolKeys(db, rows) <==>
              exists i :: 0 <= i < |rows| && rows[i].email == key.0 && Wants(db, rows, i, key.1)
  {
    if rows != [] {
      var n := |rows| - 1;
      EnrolKeysFacts(db, rows[..n]);
      RowKeysFacts(db, EnrolKeys(db, rows[..n]), rows[n].email, rows[n].courses);
      forall key ensures key in EnrolKeys(db, rows) <==>
                exists i :: 0 <= i < |rows| && rows[i].email == key.0 && Wants(db, rows, i, key.1)
      {
        if key in EnrolKeys(db, rows[..n]) {
          var i :| 0 <= i < n && rows[..n][i].email == key.0 && Wants(db, rows[..n], i, key.1);
          assert rows[i].email == key.0 && Wants(db, rows, i, key.1);
        } else if key in EnrolKeys(db, rows) {
          assert rows[n].email == key.0 && Wants(db, rows, n, key.1);
        }
        if i :| 0 <= i < |rows| && rows[i].email == key.0 && Wants(db, rows, i, key.1) {
          if i < n {
            assert rows[..n][i].email == key.0 && Wants(db, rows[..n], i, key.1);
          }
        }
      }
    }
  }

  lemma {:induction false} PairsMembers(keys: seq<(string, int)>, owner: string -> Option<int>)
    ensures forall pair :: pair in Pairs(keys, owner) <==>
              exists key :: key in keys && owner(key.0) == Some(pair.0) && key.1 == pair.1
  {
    if keys != [] {
      var short, last := keys[..|keys| - 1], keys[|keys| - 1];
      PairsMembers(short, owner);
      forall pair ensures pair in Pairs(keys, owner) <==>
                exists key :: key in keys && owner(key.0) == Some(pair.0) && key.1 == pair.1
      {
        assert forall key :: key in keys <==> key in short || key == last;
        if pair in Pairs(keys, owner) && pair !in Pairs(short, owner) {
          assert last in keys && owner(last.0) == Some(pair.0) && last.1 == pair.1;
        }
      }
    }
  }

  lemma {:induction false} FreshMembers(pairs: seq<(int, int)>, enrolled: set<(int, int)>)
    ensures forall pair :: pair in Fresh(pairs, enrolled) <==> pair in pairs && pair !in enrolled
  {
    if pairs != [] {
      FreshMembers(pairs[..|pairs| - 1], enrolled);
      assert forall pair :: pair in pairs <==> pair in pairs[..|pairs| - 1] || pair == pairs[|pairs| - 1];
    }
  }

  /** Two keys stand for one user and course that was not enrolled. */
  ghost predicate KeysClash(keys: seq<(string, int)>, owner: string -> Option<int>, enrolled: set<(int, int)>) {
    exists i, j :: 0 <= i < j < |keys| && TwoKeysClash(keys[i], keys[j], owner, enrolled)
  }

  ghost predicate TwoKeysClash(a: (string, int), b: (string, int), owner: string -> Option<int>,
                               enrolled: set<(int, int)>) {
    owner(a.0).Some? && owner(a.0) == owner(b.0) && a.1 == b.1 && (owner(a.0).value, a.1) !in enrolled
  }

  lemma {:induction false} FreshIsDistinctIff(keys: seq<(string, int)>, owner: string -> Option<int>,
                                              enrolled: set<(int, int)>)
    ensures Distinct(Fresh(Pairs(keys, owner), enrolled)) <==> !KeysClash(keys, owner, enrolled)
  {
    if keys != [] {
      var n := |keys| - 1;
      var short, last := keys[..n], keys[n];
      FreshIsDistinctIff(short, owner, enrolled);
      PairsMembers(short, owner);
      FreshMembers(Pairs(short, owner), enrolled);
      var before, after := Fresh(Pairs(short, owner), enrolled), Fresh(Pairs(keys, owner), enrolled);
      var pairs := Pairs(short, owner);
      if owner(last.0).None? {
        assert after == before;
      } else {
        var pair := (owner(last.0).value, last.1);
        assert (pairs + [pair])[..|pairs|] == pairs;
        assert after == if pair in enrolled then before else before + [pair];
      }
      LastClash(keys, owner, enrolled);
      if after != before {
        var pair := (owner(last.0).value, last.1);
        DistinctAppend(before, pair);
        if pair in before {
          var key :| key in short && owner(key.0) == Some(pair.0) && key.1 == pair.1;
          assert TwoKeysClash(key, last, owner, enrolled);
        }
        if key :| key in short && TwoKeysClash(key, last, owner, enrolled) {
          assert key in short && owner(key.0) == Some(pair.0) && key.1 == pair.1;
          assert pair in pairs;
          assert pair in before;
        }
      }
    }
  }

  lemma DistinctAppend(s: seq<(int, int)>, x: (int, int))
    ensures Distinct(s + [x]) <==> Distinct(s) && x !in s
  {
    var t := s + [x];
    if Distinct(t) {
      assert forall i :: 0 <= i < |s| ==> s[i] == t[i] && t[i] != t[|s|];
    }
  }

  lemma LastClash(keys: seq<(string, int)>, owner: string -> Option<int>, enrolled: set<(int, int)>)
    requires keys != []
    ensures var n := |keys| - 1;
            KeysClash(keys, owner, enrolled) <==>
              (KeysClash(keys[..n], owner, enrolled)
               || exists key :: key in keys[..n] && TwoKeysClash(key, keys[n], owner, enrolled))
  {
  }

  /** Two rows with different emails ask for one course on behalf of one user not yet in it. */
  ghost predicate RowsClash(db: Db, rows: seq<Prepared>, owner: string -> Option<int>) {
    exists i: nat, j: nat, course :: RowsClashAt(db, rows, owner, i, j, course)
  }

  ghost predicate RowsClashAt(db: Db, rows: seq<Prepared>, owner: string -> Option<int>, i: nat, j: nat, course: int) {
    && i < |rows| && j < |rows| && rows[i].email != rows[j].email
    && Wants(db, rows, i, course) && Wants(db, rows, j, course)
    && TwoKeysClash((rows[i].email, course), (rows[j].email, course), owner, db.enrolled)
  }

  lemma KeysClashMeansRowsClash(db: Db, rows: seq<Prepared>, owner: string -> Option<int>)
    requires KeysClash(EnrolKeys(db, rows), owner, db.enrolled)
    ensures RowsClash(db, rows, owner)
  {
    var keys := EnrolKeys(db, rows);
    EnrolKeysFacts(db, rows);
    var a, b :| 0 <= a < b < |keys| && TwoKeysClash(keys[a], keys[b], owner, db.enrolled);
    var x, y := keys[a], keys[b];
    assert x in keys && y in keys && x != y;
    var i :| 0 <= i < |rows| && rows[i].email == x.0 && Wants(db, rows, i, x.1);
    var j :| 0 <= j < |rows| && rows[j].email == y.0 && Wants(db, rows, j, y.1);
    assert RowsClashAt(db, rows, owner, i, j, x.1);
  }

  lemma RowsClashMeansKeysClash(db: Db, rows: seq<Prepared>, owner: string -> Option<int>)
    requires RowsClash(db, rows, owner)
    ensures KeysClash(EnrolKeys(db, rows), owner, db.enrolled)
  {
    var keys := EnrolKeys(db, rows);
    EnrolKeysFacts(db, rows);
    var i: nat, j: nat, course :| RowsClashAt(db, rows, owner, i, j, course);
    var x, y := (rows[i].email, course), (rows[j].email, course);
    assert x in keys && y in keys;
    var a :| 0 <= a < |keys| && keys[a] == x;
    var b :| 0 <= b < |keys| && keys[b] == y;
    var first, second := if a < b then a else b, if a < b then b else a;
    assert TwoKeysClash(keys[first], keys[second], owner, db.enrolled);
  }

  /** The new enrolments and the new events of an import that went through. */
  ghost predicate OneEventEach(db: Db, after: Db) {
    && db.joined <= after.joined
    && Distinct(after.joined[|db.joined|..])
    && Members(after.joined[|db.joined|..]) == after.enrolled - db.enrolled
  }

  /** The new events name the new enrolments, each once unless two sent pairs coincide. */
  lemma EventsAreDistinctIff(db: Db, rows: seq<Prepared>, codes: nat -> Value)
    requires Valid(db) && Commit(db, rows, codes).1.Some?
    ensures OneEventEach(db, Commit(db, rows, codes).0) <==> !RowsClash(db, rows, OwnerAfter(db, rows, codes))
    ensures Commit(db, rows, codes).1.value.enrolled == |Commit(db, rows, codes).0.joined| - |db.joined|
    ensures db.joined <= Commit(db, rows, codes).0.joined
    ensures var after := Commit(db, rows, codes).0;
            Members(after.joined[|db.joined|..]) == after.enrolled - db.enrolled
  {
    var owner := OwnerAfter(db, rows, codes);
    var keys, pairs := EnrolKeys(db, rows), NewPairs(db, rows, codes);
    var after := Committed(db, rows, codes);
    InsertShape(db, PlanRows(db, rows, codes).creations);
    assert after.joined[|db.joined|..] == Fresh(pairs, db.enrolled);
    FreshMembers(pairs, db.enrolled);
    FreshIsDistinctIff(keys, owner, db.enrolled);
    if KeysClash(keys, owner, db.enrolled) {
      KeysClashMeansRowsClash(db, rows, owner);
    }
    if RowsClash(db, rows, owner) {
      RowsClashMeansKeysClash(db, rows, owner);
    }
  }

  /** The stored user an email stands for before anything is written, if there is one. */
  function OwnerBefore(db: Db, rows: seq<Prepared>): string -> Option<int> {
    email => Owner(db, db.emails, rows, email)
  }

  /** Inserting users settles only the emails that stood for nobody. */
  lemma {:induction false} OwnerGrows(db: Db, emails: map<string, int>, rows: seq<Prepared>, email: string)
    requires email in db.emails ==> email in emails && emails[email] == db.emails[email]
    ensures var before, after := Owner(db, db.emails, rows, email), Owner(db, emails, rows, email);
            if before.Some? then after == before
            else email !in db.emails && after == (if email in emails then Some(emails[email]) else None)
  {
    if rows != [] {
      OwnerGrows(db, emails, rows[..|rows| - 1], email);
    }
  }

  lemma {:induction false} OwnerBeforeIsStored(db: Db, rows: seq<Prepared>, email: string)
    requires Valid(db)
    ensures Owner(db, db.emails, rows, email).Some? ==> Owner(db, db.emails, rows, email).value in db.users
  {
    if rows != [] {
      OwnerBeforeIsStored(db, rows[..|rows| - 1], email);
    }
  }

  /** An email that stood for nobody stands for a new user, whom only this email leads to. */
  lemma OwnerOfEmail(db: Db, rows: seq<Prepared>, codes: nat -> Value, email: string)
    requires Valid(db) && Valid(Inserted(db, rows, codes))
    ensures var before, after := OwnerBefore(db, rows)(email), OwnerAfter(db, rows, codes)(email);
            && (before.Some? ==> before.value in db.users && after == before)
            && (before.None? && after.Some? ==>
                  && after.value in Inserted(db, rows, codes).users && after.value !in db.users
                  && Inserted(db, rows, codes).users[after.value].email == email)
  {
    var inserted := Inserted(db, rows, codes);
    if email in db.emails {
      KnownEmailAfter(db, rows, codes, email);
    }
    OwnerGrows(db, inserted.emails, rows, email);
    OwnerBeforeIsStored(db, rows, email);
    if email !in db.emails && email in inserted.emails && inserted.emails[email] in db.users {
      InsertKeepsUser(db, PlanRows(db, rows, codes).creations, inserted.emails[email]);
    }
  }

  lemma KeysClashAlike(db: Db, rows: seq<Prepared>, codes: nat -> Value, a: (string, int), b: (string, int))
    requires Valid(db) && Valid(Inserted(db, rows, codes)) && a.0 != b.0
    ensures TwoKeysClash(a, b, OwnerAfter(db, rows, codes), db.enrolled) <==>
              TwoKeysClash(a, b, OwnerBefore(db, rows), db.enrolled)
  {
    OwnerOfEmail(db, rows, codes, a.0);
    OwnerOfEmail(db, rows, codes, b.0);
  }

  lemma RowsClashAlike(db: Db, rows: seq<Prepared>, codes: nat -> Value)
    requires Valid(db) && Valid(Inserted(db, rows, codes))
    ensures RowsClash(db, rows, OwnerAfter(db, rows, codes)) <==> RowsClash(db, rows, OwnerBefore(db, rows))
  {
    var before, after := OwnerBefore(db, rows), OwnerAfter(db, rows, codes);
    if i: nat, j: nat, course :| RowsClashAt(db, rows, after, i, j, course) {
      KeysClashAlike(db, rows, codes, (rows[i].email, course), (rows[j].email, course));
      assert RowsClashAt(db, rows, before, i, j, course);
    }
    if i: nat, j: nat, course :| RowsClashAt(db, rows, before, i, j, course) {
      KeysClashAlike(db, rows, codes, (rows[i].email, course), (rows[j].email, course));
      assert RowsClashAt(db, rows, after, i, j, course);
    }
  }

  /** Exactly one joined event per new enrolment, if and only if no two rows with different
      emails want the same course for the same stored user; who that is can be told beforehand. */
  lemma OneEventPerEnrolmentIff(db: Db, rows: seq<Prepared>, codes: nat -> Value)
    requires Valid(db) && Commit(db, rows, codes).1.Some?
    ensures OneEventEach(db, Commit(db, rows, codes).0) <==> !RowsClash(db, rows, OwnerBefore(db, rows))
  {
    EventsAreDistinctIff(db, rows, codes);
    InsertedIsValid(db, rows, codes);
    RowsClashAlike(db, rows, codes);
  }

  /** Rows that resolve to distinct users therefore record each enrolment once. */
  lemma DistinctTargetsRecordOnce(db: Db, rows: seq<Prepared>, codes: nat -> Value)
    requires Valid(db) && DistinctTargets(db, rows)
    ensures Commit(db, rows, codes).1.Some?
    ensures OneEventEach(db, Commit(db, rows, codes).0)
  {
    CreationsAreNotRepeated(db, rows, codes);
    EventsAreDistinctIff(db, rows, codes);
    var owner := OwnerAfter(db, rows, codes);
    forall i, j | 0 <= i < |rows| && 0 <= j < |rows| && rows[i].email != rows[j].email
      ensures owner(rows[i].email) != owner(rows[j].email)
    {
      OwnerOfRow(db, rows, codes, i);
      OwnerOfRow(db, rows, codes, j);
      if i < j {
        IdsDiffer(db, rows, i, j);
      } else if j < i {
        IdsDiffer(db, rows, j, i);
      }
    }
  }

  lemma DistinctRowsCommit(db: Db, rows: seq<Prepared>, codes: nat -> Value)
    requires Valid(db) && DistinctTargets(db, rows)
    ensures Commit(db, rows, codes) == (Committed(db, rows, codes), Some(ReportOf(db, rows, codes)))
  {
    CreationsAreNotRepeated(db, rows, codes);
  }

  lemma CommittedEnrolled(db: Db, rows: seq<Prepared>, codes: nat -> Value, pair: (int, int))
    requires Valid(db)
    ensures pair in Committed(db, rows, codes).enrolled <==> pair in db.enrolled || pair in NewPairs(db, rows, codes)
  {
  }

  /** A list has as many members as elements just when it repeats none. */
  lemma {:induction false} SizeIff(s: seq<(int, int)>)
    ensures |Members(s)| <= |s|
    ensures |Members(s)| == |s| <==> Distinct(s)
  {
    if s != [] {
      var short, last := s[..|s| - 1], s[|s| - 1];
      SizeIff(short);
      assert s == short + [last];
      DistinctAppend(short, last);
      assert Members(s) == Members(short) + {last};
    }
  }

  /** Whatever the batch, the report's first number is how many ids were handed out. Its number
      of enrolments is how many are new if and only if no two rows clash over one user. */
  lemma ReportCountsExactly(db: Db, rows: seq<Prepared>, codes: nat -> Value)
    requires Valid(db) && Commit(db, rows, codes).1.Some?
    ensures var (after, report) := Commit(db, rows, codes);
            && report.value.created == after.nextId - db.nextId
            && report.value.enrolled >= |after.enrolled - db.enrolled|
            && (report.value.enrolled == |after.enrolled - db.enrolled| <==>
                  !RowsClash(db, rows, OwnerBefore(db, rows)))
  {
    EventsAreDistinctIff(db, rows, codes);
    OneEventPerEnrolmentIff(db, rows, codes);
    PlanLoadsStored(db, rows, codes);
    InsertShape(db, PlanRows(db, rows, codes).creations);
    SizeIff(Committed(db, rows, codes).joined[|db.joined|..]);
  }

  /** A user that no row resolves to is left as it was. */
  lemma OtherUsersUnchanged(db: Db, rows: seq<Prepared>, codes: nat -> Value, id: int)
    requires Valid(db) && id in db.users && forall i :: 0 <= i < |rows| ==> Target(db, rows[i]) != Some(id)
    ensures id in Commit(db, rows, codes).0.users && Commit(db, rows, codes).0.users[id] == db.users[id]
  {
    UntouchedSoFar(db, rows, codes, id);
    StoredUserAfter(db, rows, codes, id);
  }

  /** A row's user is enrolled in each existing course the row lists, if and only if the user
      was enrolled before, or the row's email is not held by somebody who was: the check for
      earlier enrolments goes by the email of the row, not by the user it matched. */
  lemma EnrolledIff(db: Db, rows: seq<Prepared>, codes: nat -> Value, i: nat, course: int)
    requires Valid(db) && DistinctTargets(db, rows) && i < |rows|
    requires course in rows[i].courses && course in db.courses
    ensures (IdOf(db, rows, i), course) in Commit(db, rows, codes).0.enrolled <==>
              (IdOf(db, rows, i), course) in db.enrolled || !AlreadyIn(db, rows[i].email, course)
  {
    var pair := (IdOf(db, rows, i), course);
    DistinctRowsCommit(db, rows, codes);
    CommittedEnrolled(db, rows, codes, pair);
    SentIff(db, rows, codes, i, course);
  }

  lemma SentIff(db: Db, rows: seq<Prepared>, codes: nat -> Value, i: nat, course: int)
    requires Valid(db) && DistinctTargets(db, rows) && i < |rows|
    requires course in rows[i].courses && course in db.courses
    ensures (IdOf(db, rows, i), course) in NewPairs(db, rows, codes) <==> !AlreadyIn(db, rows[i].email, course)
  {
    var pair := (IdOf(db, rows, i), course);
    if !AlreadyIn(db, rows[i].email, course) {
      WantedPairIsSent(db, rows, codes, i, course);
    }
    if pair in NewPairs(db, rows, codes) {
      var j := SentPairIsWanted(db, rows, codes, pair);
      if i < j {
        IdsDiffer(db, rows, i, j);
      } else if j < i {
        IdsDiffer(db, rows, j, i);
      }
    }
  }

  lemma WantedPairIsSent(db: Db, rows: seq<Prepared>, codes: nat -> Value, i: nat, course: int)
    requires Valid(db) && DistinctTargets(db, rows) && i < |rows| && Wants(db, rows, i, course)
    ensures (IdOf(db, rows, i), course) in NewPairs(db, rows, codes)
  {
    var owner := OwnerAfter(db, rows, codes);
    EnrolKeysFacts(db, rows);
    PairsMembers(EnrolKeys(db, rows), owner);
    OwnerOfRow(db, rows, codes, i);
    var key := (rows[i].email, course);
    assert key in EnrolKeys(db, rows) && owner(key.0) == Some(IdOf(db, rows, i)) && key.1 == course;
  }

  lemma SentPairIsWanted(db: Db, rows: seq<Prepared>, codes: nat -> Value, pair: (int, int)) returns (i: nat)
    requires Valid(db) && DistinctTargets(db, rows) && pair in NewPairs(db, rows, codes)
    ensures i < |rows| && Wants(db, rows, i, pair.1) && IdOf(db, rows, i) == pair.0
  {
    var owner := OwnerAfter(db, rows, codes);
    EnrolKeysFacts(db, rows);
    PairsMembers(EnrolKeys(db, rows), owner);
    var key :| key in EnrolKeys(db, rows) && owner(key.0) == Some(pair.0) && key.1 == pair.1;
    var j :| 0 <= j < |rows| && rows[j].email == key.0 && Wants(db, rows, j, key.1);
    OwnerOfRow(db, rows, codes, j);
    i := j;
  }

  // ---------------------------------------------------------------------------------------
  // Committing again

  /** Row i names the id that this very import hands to the new user of row j. */
  predicate NamesNew(db: Db, rows: seq<Prepared>, i: nat, j: nat)
    requires i < |rows| && j < |rows|
  {
    Target(db, rows[j]).None? && rows[i].matchId == Some(IdOf(db, rows, j))
  }

  /** No row has anything to fill in a new user whose id it names. */
  ghost predicate NamesOnlyFull(db: Db, rows: seq<Prepared>, codes: nat -> Value) {
    forall i, j :: 0 <= i < |rows| && 0 <= j < |rows| && NamesNew(db, rows, i, j) ==>
      !Fills(NewUser(rows[j], codes(j)), rows[i])
  }

  /** An id that is handed out belongs to one of the new rows. */
  lemma {:induction false} HandedOutTo(db: Db, rows: seq<Prepared>, id: int) returns (j: nat)
    requires db.nextId <= id < db.nextId + NewCount(db, rows)
    ensures j < |rows| && Target(db, rows[j]).None? && IdOf(db, rows, j) == id
  {
    var n := |rows| - 1;
    if id < db.nextId + NewCount(db, rows[..n]) {
      j := HandedOutTo(db, rows[..n], id);
      assert rows[..n][..j] == rows[..j];
    } else {
      j := n;
    }
  }

  lemma UsersAfter(db: Db, rows: seq<Prepared>, codes: nat -> Value, id: int)
    requires Valid(db)
    ensures id in Committed(db, rows, codes).users <==>
            id in db.users || db.nextId <= id < db.nextId + NewCount(db, rows)
  {
    PlanLoadsStored(db, rows, codes);
    InsertShape(db, PlanRows(db, rows, codes).creations);
  }

  /** On the second commit a row finds its own user, unless it names a new one. */
  lemma TargetAfter(db: Db, rows: seq<Prepared>, codes: nat -> Value, i: nat)
    requires Valid(db) && DistinctTargets(db, rows) && i < |rows|
    requires forall j :: 0 <= j < |rows| ==> !NamesNew(db, rows, i, j)
    ensures ById(Committed(db, rows, codes), rows[i]) == ById(db, rows[i])
    ensures Target(Committed(db, rows, codes), rows[i]) == Some(IdOf(db, rows, i))
  {
    RowEmailAfter(db, rows, codes, i);
    if rows[i].matchId.Some? {
      var id := rows[i].matchId.value;
      UsersAfter(db, rows, codes, id);
      if db.nextId <= id < db.nextId + NewCount(db, rows) {
        var j := HandedOutTo(db, rows, id);
        assert NamesNew(db, rows, i, j);
      }
    }
  }

  lemma NamedTargetAfter(db: Db, rows: seq<Prepared>, codes: nat -> Value, i: nat, j: nat)
    requires Valid(db) && DistinctTargets(db, rows) && i < |rows| && j < |rows| && NamesNew(db, rows, i, j)
    ensures ById(db, rows[i]).None?
    ensures ById(Committed(db, rows, codes), rows[i]) == Some(IdOf(db, rows, j))
    ensures IdOf(db, rows, j) in Committed(db, rows, codes).users
    ensures Committed(db, rows, codes).users[IdOf(db, rows, j)] == NewUser(rows[j], codes(j))
  {
    NewRowReachesItsUser(db, rows, codes, j);
  }

  /** Every row resolves to a stored user that has nothing left to fill. */
  ghost predicate Satisfied(db: Db, rows: seq<Prepared>)
    requires Valid(db)
  {
    forall i :: 0 <= i < |rows| ==>
      var target := Target(db, rows[i]);
      target.Some? && FilledUser(db.users[target.value], rows[i]) == db.users[target.value]
  }

  lemma {:induction false} NothingPlanned(db: Db, rows: seq<Prepared>, codes: nat -> Value)
    requires Valid(db) && Satisfied(db, rows)
    ensures var plan := PlanRows(db, rows, codes);
            && plan.creations == []
            && plan.loaded.Keys <= db.users.Keys
            && forall id :: id in plan.loaded ==> plan.loaded[id] == db.users[id]
    ensures UpdatedCount(db, rows, codes) == 0
    ensures NewCount(db, rows) == 0
  {
    if rows != [] {
      var n := |rows| - 1;
      assert forall i :: 0 <= i < n ==> rows[..n][i] == rows[i];
      NothingPlanned(db, rows[..n], codes);
      var user := db.users[Target(db, rows[n]).value];
      FillingIsAChange(user.fields, Incoming(rows[n]));
      FillingIsAChange(user.custom, rows[n].custom);
    }
  }

  lemma {:induction false} NobodyCreated(db: Db, rows: seq<Prepared>, owner: string -> Option<int>)
    requires Valid(db) && Satisfied(db, rows)
    ensures CreatedIds(db, rows, owner) == []
  {
    if rows != [] {
      var n := |rows| - 1;
      assert forall i :: 0 <= i < n ==> rows[..n][i] == rows[i];
      NobodyCreated(db, rows[..n], owner);
    }
  }

  lemma {:induction false} NothingFresh(pairs: seq<(int, int)>, enrolled: set<(int, int)>)
    requires forall pair :: pair in pairs ==> pair in enrolled
    ensures Fresh(pairs, enrolled) == []
  {
    if pairs != [] {
      NothingFresh(pairs[..|pairs| - 1], enrolled);
    }
  }

  /** Whoever held a row's email before or was created under it is enrolled wherever the second
      commit looks; only a row matched to a stored user can still send a pair. */
  lemma SecondPairIsEnrolled(db: Db, rows: seq<Prepared>, codes: nat -> Value, i: nat, course: int)
    requires Valid(db) && DistinctTargets(db, rows) && i < |rows|
    requires Wants(Committed(db, rows, codes), rows, i, course)
    ensures ById(db, rows[i]).Some?
    ensures (ById(db, rows[i]).value, course) in Committed(db, rows, codes).enrolled
  {
    var after := Committed(db, rows, codes);
    CommittedKeepsCourses(db, rows, codes);
    if AlreadyIn(db, rows[i].email, course) {
      KnownEmailAfter(db, rows, codes, rows[i].email);
      CommittedEnrolled(db, rows, codes, (db.emails[rows[i].email], course));
      assert AlreadyIn(after, rows[i].email, course);
    }
    WantedPairIsSent(db, rows, codes, i, course);
    CommittedEnrolled(db, rows, codes, (IdOf(db, rows, i), course));
    RowEmailAfter(db, rows, codes, i);
  }

  lemma CommittedKeepsCourses(db: Db, rows: seq<Prepared>, codes: nat -> Value)
    requires Valid(db)
    ensures Committed(db, rows, codes).courses == db.courses
    ensures Committed(db, rows, codes).emails == Inserted(db, rows, codes).emails
  {
    InsertShape(db, PlanRows(db, rows, codes).creations);
  }

  /** So every pair the second commit would send is enrolled already. */
  lemma SecondPairsAreEnrolled(db: Db, rows: seq<Prepared>, codes: nat -> Value, codesAgain: nat -> Value,
                               pair: (int, int))
    requires Valid(db) && DistinctTargets(db, rows) && Valid(Committed(db, rows, codes))
    requires pair in NewPairs(Committed(db, rows, codes), rows, codesAgain)
    ensures pair in Committed(db, rows, codes).enrolled
  {
    var after := Committed(db, rows, codes);
    var owner := OwnerAfter(after, rows, codesAgain);
    EnrolKeysFacts(after, rows);
    PairsMembers(EnrolKeys(after, rows), owner);
    var key :| key in EnrolKeys(after, rows) && owner(key.0) == Some(pair.0) && key.1 == pair.1;
    var i :| 0 <= i < |rows| && rows[i].email == key.0 && Wants(after, rows, i, key.1);
    SecondPairIsEnrolled(db, rows, codes, i, pair.1);
    MatchedOwnerAgain(db, rows, codes, codesAgain, i);
  }

  lemma MatchedOwnerAgain(db: Db, rows: seq<Prepared>, codes: nat -> Value, codesAgain: nat -> Value, i: nat)
    requires Valid(db) && DistinctTargets(db, rows) && Valid(Committed(db, rows, codes))
    requires i < |rows| && ById(db, rows[i]).Some?
    ensures OwnerAfter(Committed(db, rows, codes), rows, codesAgain)(rows[i].email) == ById(db, rows[i])
  {
    var after := Committed(db, rows, codes);
    StoredUserAfter(db, rows, codes, ById(db, rows[i]).value);
    forall k | 0 <= k < |rows| && k != i ensures rows[k].email != rows[i].email {
      OtherEmails(db, rows, i, k);
    }
    OwnerWithMatch(after, Inserted(after, rows, codesAgain).emails, rows, i);
  }

  lemma RowIsSatisfied(db: Db, rows: seq<Prepared>, codes: nat -> Value, i: nat)
    requires Valid(db) && DistinctTargets(db, rows) && i < |rows| && NamesOnlyFull(db, rows, codes)
    ensures var after := Committed(db, rows, codes);
            var target := Target(after, rows[i]);
            target.Some? && target.value in after.users
            && FilledUser(after.users[target.value], rows[i]) == after.users[target.value]
  {
    if j :| 0 <= j < |rows| && NamesNew(db, rows, i, j) {
      NamedTargetAfter(db, rows, codes, i, j);
      NotFillingKeeps(NewUser(rows[j], codes(j)), rows[i]);
    } else {
      TargetAfter(db, rows, codes, i);
      DistinctRowsCommit(db, rows, codes);
      RowsReachTheirUsers(db, rows, codes, i);
    }
  }

  lemma NotFillingKeeps(user: User, p: Prepared)
    requires !Fills(user, p)
    ensures FilledUser(user, p) == user
  {
    NothingFilled(user.fields, Incoming(p));
    NothingFilled(user.custom, p.custom);
  }

  lemma NothingFilled(into: Fields, from: Fields)
    requires !AnyFilling(into, from)
    ensures Filled(into, from) == into
  {
    forall key | key in Filled(into, from) ensures key in into && Filled(into, from)[key] == into[key] {
      assert key in from ==> !Filling(into, from, key);
    }
  }

  lemma NothingOverlaid(users: map<int, User>, loaded: map<int, User>)
    requires loaded.Keys <= users.Keys && forall id :: id in loaded ==> loaded[id] == users[id]
    ensures users + loaded == users
  {
    var overlaid := users + loaded;
    assert overlaid.Keys == users.Keys;
    forall id | id in users ensures overlaid[id] == users[id] {
    }
  }

  lemma FillingIsAChange(into: Fields, from: Fields)
    ensures Filled(into, from) == into ==> !AnyFilling(into, from)
  {
  }

  lemma NothingToCommit(db: Db, rows: seq<Prepared>, codes: nat -> Value)
    requires Valid(db) && Satisfied(db, rows)
    requires forall pair :: pair in NewPairs(db, rows, codes) ==> pair in db.enrolled
    ensures Commit(db, rows, codes) == (db, Some(Report(0, 0, 0, [])))
  {
    NothingPlanned(db, rows, codes);
    NobodyCreated(db, rows, OwnerAfter(db, rows, codes));
    var plan, pairs := PlanRows(db, rows, codes), NewPairs(db, rows, codes);
    NothingFresh(pairs, db.enrolled);
    assert Inserted(db, rows, codes) == db;
    assert db.enrolled + Members(pairs) == db.enrolled;
    NothingOverlaid(db.users, plan.loaded);
    assert db.joined + [] == db.joined;
    assert Committed(db, rows, codes) == db;
  }

  /** A commit that counts no update loads users without changing them. */
  lemma {:induction false} NoUpdateLoads(db: Db, rows: seq<Prepared>, codes: nat -> Value, id: int)
    requires Valid(db) && UpdatedCount(db, rows, codes) == 0 && id in db.users
    ensures Loaded(db, PlanRows(db, rows, codes).loaded, id) == db.users[id]
  {
    if rows != [] {
      var n := |rows| - 1;
      NoUpdateLoads(db, rows[..n], codes, id);
      PlanOneAt(db, PlanRows(db, rows[..n], codes), rows[n], codes(n), id);
      if Target(db, rows[n]) == Some(id) {
        NotFillingKeeps(db.users[id], rows[n]);
      }
    }
  }

  lemma {:induction false} NoUpdateNoFill(db: Db, rows: seq<Prepared>, codes: nat -> Value, i: nat, id: int)
    requires Valid(db) && UpdatedCount(db, rows, codes) == 0
    requires i < |rows| && Target(db, rows[i]) == Some(id)
    ensures !Fills(db.users[id], rows[i])
  {
    var n := |rows| - 1;
    if i < n {
      assert rows[..n][i] == rows[i];
      NoUpdateNoFill(db, rows[..n], codes, i, id);
    } else {
      NoUpdateLoads(db, rows[..n], codes, id);
    }
  }

  lemma FullNamesMeanIdle(db: Db, rows: seq<Prepared>, codes: nat -> Value, codesAgain: nat -> Value)
    requires Valid(db) && DistinctTargets(db, rows) && Valid(Committed(db, rows, codes))
    requires NamesOnlyFull(db, rows, codes)
    ensures var after := Committed(db, rows, codes);
            Commit(after, rows, codesAgain) == (after, Some(Report(0, 0, 0, [])))
  {
    var after := Committed(db, rows, codes);
    forall i | 0 <= i < |rows|
      ensures var target := Target(after, rows[i]);
              target.Some? && FilledUser(after.users[target.value], rows[i]) == after.users[target.value]
    {
      RowIsSatisfied(db, rows, codes, i);
    }
    forall pair | pair in NewPairs(after, rows, codesAgain) ensures pair in after.enrolled {
      SecondPairsAreEnrolled(db, rows, codes, codesAgain, pair);
    }
    NothingToCommit(after, rows, codesAgain);
  }

  lemma IdleMeansFullNames(db: Db, rows: seq<Prepared>, codes: nat -> Value, codesAgain: nat -> Value)
    requires Valid(db) && DistinctTargets(db, rows) && Valid(Committed(db, rows, codes))
    requires UpdatedCount(Committed(db, rows, codes), rows, codesAgain) == 0
    ensures NamesOnlyFull(db, rows, codes)
  {
    var after := Committed(db, rows, codes);
    forall i, j | 0 <= i < |rows| && 0 <= j < |rows| && NamesNew(db, rows, i, j)
      ensures !Fills(NewUser(rows[j], codes(j)), rows[i])
    {
      NamedTargetAfter(db, rows, codes, i, j);
      NoUpdateNoFill(after, rows, codesAgain, i, IdOf(db, rows, j));
    }
  }

  /** Committing the same rows again creates, updates, enrols and records nothing, if and only if
      no row has anything to fill in a new user of this import whose id it names. */
  lemma CommittingAgainDoesNothingIff(db: Db, rows: seq<Prepared>, codes: nat -> Value, codesAgain: nat -> Value)
    requires Valid(db) && DistinctTargets(db, rows)
    ensures var after := Commit(db, rows, codes).0;
            && Valid(after)
            && (Commit(after, rows, codesAgain) == (after, Some(Report(0, 0, 0, []))) <==>
                  NamesOnlyFull(db, rows, codes))
  {
    DistinctRowsCommit(db, rows, codes);
    CommitStaysValid(db, rows, codes);
    if NamesOnlyFull(db, rows, codes) {
      FullNamesMeanIdle(db, rows, codes, codesAgain);
    }
    var after := Committed(db, rows, codes);
    if Commit(after, rows, codesAgain).1 == Some(Report(0, 0, 0, [])) {
      assert UpdatedCount(after, rows, codesAgain) == 0;
      IdleMeansFullNames(db, rows, codes, codesAgain);
    }
  }

  // ---------------------------------------------------------------------------------------
  // Where the conditions are needed

  function Bare(email: string, name: string, matchId: Option<int>, courses: seq<int>): Prepared {
    Prepared(0, email, map["name" := Text(name)], map[], map[], courses, matchId)
  }

  lemma TwoRows(a: Prepared, b: Prepared)
    ensures [a, b][..1] == [a] && [a][..0] == []
  {
  }

  /** Two rows matched to one user record the one new enrolment twice. */
  lemma OneUserTwoEvents(codes: nat -> Value)
    ensures var db := Db(map[1 := User("z", map[], map[])], map["z" := 1], 2, {7}, {}, []);
            var rows := [Bare("a", "", Some(1), [7]), Bare("b", "", Some(1), [7])];
            Valid(db) && Commit(db, rows, codes).1.Some? && !OneEventEach(db, Commit(db, rows, codes).0)
  {
    var db := Db(map[1 := User("z", map[], map[])], map["z" := 1], 2, {7}, {}, []);
    var a, b := Bare("a", "", Some(1), [7]), Bare("b", "", Some(1), [7]);
    var rows := [a, b];
    var owner := OwnerBefore(db, rows);
    PlanLoadsStored(db, rows, codes);
    TwoRows(a, b);
    assert NewCount(db, [a]) == 0;
    assert NewCount(db, rows) == 0;
    OneEventPerEnrolmentIff(db, rows, codes);
    OwnerWithMatch(db, db.emails, rows, 0);
    OwnerWithMatch(db, db.emails, rows, 1);
    assert RowsClashAt(db, rows, owner, 0, 1, 7);
  }

  lemma FilledGet(into: Fields, from: Fields, key: string)
    ensures Get(Filled(into, from), key)
         == if Blank(Get(into, key)) && !Blank(Get(from, key)) then Get(from, key) else Get(into, key)
  {
  }

  /** The last of two rows fills the name of the user both resolve to. */
  lemma LastRowFillsName(db: Db, a: Prepared, b: Prepared, codes: nat -> Value, id: int, name: string)
    requires Valid(db) && id in db.users && Blank(Get(db.users[id].fields, "name")) && name != ""
    requires Target(db, a) == Some(id) && Target(db, b) == Some(id)
    requires Blank(Get(Incoming(a), "name")) && Get(Incoming(b), "name") == Text(name)
    ensures Get(Loaded(db, PlanRows(db, [a, b], codes).loaded, id).fields, "name") == Text(name)
    ensures PlanRows(db, [a, b], codes).creations == []
  {
    TwoRows(a, b);
    var none := PlanRows(db, [], codes);
    var first := PlanRows(db, [a], codes);
    assert first == PlanOne(db, none, a, codes(0));
    var user := db.users[id];
    assert Loaded(db, first.loaded, id) == FilledUser(user, a);
    assert PlanRows(db, [a, b], codes) == PlanOne(db, first, b, codes(1));
    FilledGet(user.fields, Incoming(a), "name");
    FilledGet(FilledUser(user, a).fields, Incoming(b), "name");
  }

  lemma NameFills(code: Value)
    ensures var a, b := Bare("a", "", None, []), Bare("b", "Bo", Some(1), []);
            Blank(Get(NewUser(a, code).fields, "name")) && Fills(NewUser(a, code), b)
  {
    var a, b := Bare("a", "", None, []), Bare("b", "Bo", Some(1), []);
    assert "name" in Incoming(b) && Filling(NewUser(a, code).fields, Incoming(b), "name");
  }

  /** A row that names the id its own import hands to another row: the second commit fills
      that other user, so it is not idle. */
  lemma FutureMatchBreaksIdempotence(codes: nat -> Value)
    ensures var db := Db(map[], map[], 1, {}, {}, []);
            var rows := [Bare("a", "", None, []), Bare("b", "Bo", Some(1), [])];
            && Valid(db) && DistinctTargets(db, rows) && !NamesOnlyFull(db, rows, codes)
            && var after := Commit(db, rows, codes).0;
               Valid(after) && Commit(after, rows, codes).0 != after
  {
    var db := Db(map[], map[], 1, {}, {}, []);
    var a, b := Bare("a", "", None, []), Bare("b", "Bo", Some(1), []);
    var rows := [a, b];
    assert rows[..0] == [];
    assert NamesNew(db, rows, 0, 0) || NamesNew(db, rows, 1, 0);
    NameFills(codes(0));
    DistinctRowsCommit(db, rows, codes);
    CommitStaysValid(db, rows, codes);
    NamedTargetAfter(db, rows, codes, 1, 0);
    RowEmailAfter(db, rows, codes, 0);
    SecondCommitFillsName(Committed(db, rows, codes), a, b, codes, 1, "Bo");
  }

  lemma SecondCommitFillsName(db: Db, a: Prepared, b: Prepared, codes: nat -> Value, id: int, name: string)
    requires Valid(db) && id in db.users && Blank(Get(db.users[id].fields, "name")) && name != ""
    requires Target(db, a) == Some(id) && Target(db, b) == Some(id)
    requires Blank(Get(Incoming(a), "name")) && Get(Incoming(b), "name") == Text(name)
    ensures Commit(db, [a, b], codes).0 != db
  {
    LastRowFillsName(db, a, b, codes, id, name);
    StoredUserAfter(db, [a, b], codes, id);
  }
}
