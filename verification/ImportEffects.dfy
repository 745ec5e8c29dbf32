/**
 What an import leaves in every field of every user, in every enrolment and in its report, told
 from the rows and the tables before it alone.
 */
module ImportEffects {
  import opened Wrappers
  import opened ImportRows
  import opened ImportCommit
  import opened ImportSafety

  // ---------------------------------------------------------------------------------------
  // Whom a row is about

  /** The row carries the id of a stored user. */
  predicate Named(db: Db, p: Prepared, id: int) { p.matchId == Some(id) && id != 0 && id in db.users }

  /** The row is about this stored user: the one it names, else the one with its email. */
  predicate About(db: Db, p: Prepared, id: int) {
    || Named(db, p, id)
    || ((forall other <- db.users :: !Named(db, p, other)) && p.email in db.emails && db.emails[p.email] == id)
  }

  /** The row is about nobody stored, so it makes a new user. */
  predicate New(db: Db, p: Prepared) {
    (forall id <- db.users :: !Named(db, p, id)) && p.email !in db.emails
  }

  lemma AboutIsTarget(db: Db, p: Prepared, id: int)
    ensures About(db, p, id) <==> Target(db, p) == Some(id)
    ensures New(db, p) <==> Target(db, p) == None
  {
    if ById(db, p).Some? {
      assert Named(db, p, p.matchId.value);
    }
  }

  /** A place of a user that holds a value. */
  datatype Column = Field(key: string) | Custom(key: string)

  function Held(user: User, c: Column): Value {
    if c.Custom? then Get(user.custom, c.key) else Get(user.fields, c.key)
  }

  /** The row's word on a column: a built-in field goes before an identity field, and the email is
      never taken from either. */
  function Said(p: Prepared, c: Column): Value {
    if c.Custom? then Get(p.custom, c.key)
    else if c.key == "email" then Null
    else if c.key in p.builtins then p.builtins[c.key]
    else Get(p.identity, c.key)
  }

  predicate IsBlank(v: Value) { v == Null || v == Text("") }

  // ---------------------------------------------------------------------------------------
  // The first row that says something decides

  /** What the rows offer one stored user for a column, row by row; a row about somebody else
      offers nothing. */
  ghost function Offers(db: Db, rows: seq<Prepared>, id: int, c: Column): (offers: seq<Value>)
    ensures |offers| == |rows|
  {
    seq(|rows|, i requires 0 <= i < |rows| => if About(db, rows[i], id) then Said(rows[i], c) else Null)
  }

  /** `v` is the stored value if that is not blank, else the first offer that is not, else the
      stored value again. */
  ghost predicate Decides(stored: Value, offers: seq<Value>, v: Value) {
    && (!IsBlank(stored) || (forall i | 0 <= i < |offers| :: IsBlank(offers[i])) ==> v == stored)
    && (forall i | 0 <= i < |offers| && IsBlank(stored) && First(offers, i) :: v == offers[i])
  }

  ghost predicate First(offers: seq<Value>, i: int) {
    0 <= i < |offers| && !IsBlank(offers[i]) && forall j | 0 <= j < i :: IsBlank(offers[j])
  }

  lemma DecidesOnce(stored: Value, offers: seq<Value>, last: Value, v: Value)
    requires Decides(stored, offers, v)
    ensures Decides(stored, offers + [last], if IsBlank(v) && !IsBlank(last) then last else v)
    ensures IsBlank(v) <==> IsBlank(stored) && forall i | 0 <= i < |offers| :: IsBlank(offers[i])
  {
    var all := offers + [last];
    FirstOrNone(offers);
    assert forall i | 0 <= i < |offers| :: all[i] == offers[i];
    assert all[|offers|] == last;
    assert forall i :: First(offers, i) ==> First(all, i);
    assert forall i :: First(all, i) && i < |offers| ==> First(offers, i);
  }

  lemma {:induction false} FirstOrNone(offers: seq<Value>)
    ensures (exists i :: First(offers, i)) || forall i | 0 <= i < |offers| :: IsBlank(offers[i])
  {
    if offers != [] {
      var short := offers[..|offers| - 1];
      FirstOrNone(short);
      if i :| First(short, i) {
        assert First(offers, i);
      } else if !IsBlank(offers[|short|]) {
        assert First(offers, |short|);
      }
    }
  }

  lemma SaidIsIncoming(p: Prepared, c: Column)
    ensures Said(p, c) == if c.Custom? then Get(p.custom, c.key) else Get(Incoming(p), c.key)
  {
  }

  lemma FilledValue(user: User, p: Prepared, c: Column)
    ensures Held(FilledUser(user, p), c) ==
            if IsBlank(Held(user, c)) && !IsBlank(Said(p, c)) then Said(p, c) else Held(user, c)
  {
    SaidIsIncoming(p, c);
    FilledGet(user.fields, Incoming(p), c.key);
    FilledGet(user.custom, p.custom, c.key);
  }

  lemma OffersGrow(db: Db, rows: seq<Prepared>, id: int, c: Column)
    requires rows != []
    ensures var n := |rows| - 1;
            Offers(db, rows, id, c) ==
            Offers(db, rows[..n], id, c) + [if About(db, rows[n], id) then Said(rows[n], c) else Null]
  {
  }

  lemma {:induction false} LoadedValue(db: Db, rows: seq<Prepared>, codes: nat -> Value, id: int, c: Column)
    requires Valid(db) && id in db.users
    ensures Decides(Held(db.users[id], c), Offers(db, rows, id, c),
                    Held(Loaded(db, PlanRows(db, rows, codes).loaded, id), c))
  {
    if rows != [] {
      var n := |rows| - 1;
      var before := PlanRows(db, rows[..n], codes);
      var user := Loaded(db, before.loaded, id);
      LoadedValue(db, rows[..n], codes, id, c);
      PlanOneAt(db, before, rows[n], codes(n), id);
      AboutIsTarget(db, rows[n], id);
      FilledValue(user, rows[n], c);
      OffersGrow(db, rows, id, c);
      DecidesOnce(Held(db.users[id], c), Offers(db, rows[..n], id, c),
                  if About(db, rows[n], id) then Said(rows[n], c) else Null, Held(user, c));
    }
  }

  /** Every field and custom field of a stored user after any import that goes through: a value
      stays, a blank takes the first value that a row about the user has for it. */
  lemma StoredUserTakesFirstValues(db: Db, rows: seq<Prepared>, codes: nat -> Value, id: int, c: Column)
    requires Valid(db) && Commit(db, rows, codes).1.Some? && id in db.users
    ensures var after := Commit(db, rows, codes).0;
            && id in after.users && after.users[id].email == db.users[id].email
            && Decides(Held(db.users[id], c), Offers(db, rows, id, c), Held(after.users[id], c))
  {
    StoredUserAfter(db, rows, codes, id);
    PlanExtends(db, rows, codes, id);
    LoadedValue(db, rows, codes, id, c);
  }

  lemma NewUserColumn(p: Prepared, code: Value, c: Column)
    ensures Held(NewUser(p, code), c) == if c == Field("code") && IsBlank(Said(p, c)) then code else Said(p, c)
  {
    SaidIsIncoming(p, c);
    SaidIsIncoming(p, Field("code"));
  }

  lemma NewUserIs(db: Db, rows: seq<Prepared>, codes: nat -> Value, i: nat)
    requires Valid(db) && Commit(db, rows, codes).1.Some? && i < |rows| && New(db, rows[i])
    ensures var after := Commit(db, rows, codes).0;
            && rows[i].email in after.emails
            && var id := after.emails[rows[i].email];
               id !in db.users && id in after.users && after.users[id] == NewUser(rows[i], codes(i))
  {
    AboutIsTarget(db, rows[i], 0);
    NewRowReachesItsUser(db, rows, codes, i);
    PlanHoldsNew(db, rows, codes, i);
    InsertPutsEmail(db, PlanRows(db, rows, codes).creations, NewCount(db, rows[..i]));
  }

  /** Every field and custom field of a new user is what its row says; only a code that the row
      leaves blank is the one assigned. */
  lemma NewUserHoldsItsRow(db: Db, rows: seq<Prepared>, codes: nat -> Value, i: nat, c: Column)
    requires Valid(db) && Commit(db, rows, codes).1.Some? && i < |rows| && New(db, rows[i])
    ensures var after := Commit(db, rows, codes).0;
            && rows[i].email in after.emails
            && var id := after.emails[rows[i].email];
               && id !in db.users && id in after.users
               && after.users[id].email == rows[i].email
               && Held(after.users[id], c) ==
                    (if c == Field("code") && IsBlank(Said(rows[i], c)) then codes(i) else Said(rows[i], c))
  {
    NewUserIs(db, rows, codes, i);
    NewUserColumn(rows[i], codes(i), c);
  }

  // ---------------------------------------------------------------------------------------
  // What counts as an update

  /** The row is the first to have a value for this blank of a stored user. */
  ghost predicate FillsColumn(db: Db, rows: seq<Prepared>, i: int, id: int, c: Column) {
    id in db.users && IsBlank(Held(db.users[id], c)) && First(Offers(db, rows, id, c), i)
  }

  ghost predicate FillsSomething(db: Db, rows: seq<Prepared>, i: int) {
    exists id: int, c: Column :: FillsColumn(db, rows, i, id, c)
  }

  ghost function Updates(db: Db, rows: seq<Prepared>): set<nat> {
    set i: nat | i < |rows| && FillsSomething(db, rows, i)
  }

  lemma FillsStays(db: Db, rows: seq<Prepared>, n: nat, i: nat)
    requires i < n <= |rows|
    ensures FillsSomething(db, rows[..n], i) <==> FillsSomething(db, rows, i)
  {
    forall id: int, c: Column
      ensures FillsColumn(db, rows[..n], i, id, c) <==> FillsColumn(db, rows, i, id, c)
    {
      assert Offers(db, rows[..n], id, c) == Offers(db, rows, id, c)[..n];
    }
  }

  lemma FillsIff(user: User, p: Prepared)
    ensures Fills(user, p) <==> exists c: Column :: IsBlank(Held(user, c)) && !IsBlank(Said(p, c))
  {
    forall c: Column
      ensures Said(p, c) == if c.Custom? then Get(p.custom, c.key) else Get(Incoming(p), c.key)
    {
      SaidIsIncoming(p, c);
    }
    if key :| key in Incoming(p) && Filling(user.fields, Incoming(p), key) {
      assert IsBlank(Held(user, Field(key))) && !IsBlank(Said(p, Field(key)));
    } else if key :| key in p.custom && Filling(user.custom, p.custom, key) {
      assert IsBlank(Held(user, Custom(key))) && !IsBlank(Said(p, Custom(key)));
    }
    if c: Column :| IsBlank(Held(user, c)) && !IsBlank(Said(p, c)) {
      assert if c.Custom? then Filling(user.custom, p.custom, c.key) else Filling(user.fields, Incoming(p), c.key);
    }
  }

  lemma FirstAtTheEnd(offers: seq<Value>, last: Value)
    ensures First(offers + [last], |offers|) <==> !IsBlank(last) && forall j | 0 <= j < |offers| :: IsBlank(offers[j])
  {
    assert forall j | 0 <= j < |offers| :: (offers + [last])[j] == offers[j];
  }

  /** The last row fills a column just when the user loaded so far has it blank. */
  lemma LastFillsColumnIff(db: Db, rows: seq<Prepared>, codes: nat -> Value, id: int, c: Column)
    requires Valid(db) && rows != [] && id in db.users
    ensures var n := |rows| - 1;
            FillsColumn(db, rows, n, id, c) <==>
              && About(db, rows[n], id)
              && IsBlank(Held(Loaded(db, PlanRows(db, rows[..n], codes).loaded, id), c)) && !IsBlank(Said(rows[n], c))
  {
    var n := |rows| - 1;
    var user, offers := Loaded(db, PlanRows(db, rows[..n], codes).loaded, id), Offers(db, rows[..n], id, c);
    LoadedValue(db, rows[..n], codes, id, c);
    DecidesOnce(Held(db.users[id], c), offers, Null, Held(user, c));
    OffersGrow(db, rows, id, c);
    FirstAtTheEnd(offers, if About(db, rows[n], id) then Said(rows[n], c) else Null);
  }

  lemma LastFillsIff(db: Db, rows: seq<Prepared>, codes: nat -> Value)
    requires Valid(db) && rows != []
    ensures var n := |rows| - 1;
            var target := Target(db, rows[n]);
            FillsSomething(db, rows, n) <==>
              target.Some? && Fills(Loaded(db, PlanRows(db, rows[..n], codes).loaded, target.value), rows[n])
  {
    var n := |rows| - 1;
    var target, loaded := Target(db, rows[n]), PlanRows(db, rows[..n], codes).loaded;
    if id: int, c: Column :| FillsColumn(db, rows, n, id, c) {
      LastFillsColumnIff(db, rows, codes, id, c);
      AboutIsTarget(db, rows[n], id);
      FillsIff(Loaded(db, loaded, id), rows[n]);
    }
    if target.Some? && Fills(Loaded(db, loaded, target.value), rows[n]) {
      var id := target.value;
      AboutIsTarget(db, rows[n], id);
      FillsIff(Loaded(db, loaded, id), rows[n]);
      var c: Column :| IsBlank(Held(Loaded(db, loaded, id), c)) && !IsBlank(Said(rows[n], c));
      LastFillsColumnIff(db, rows, codes, id, c);
    }
  }

  lemma UpdatesGrow(db: Db, rows: seq<Prepared>)
    requires rows != []
    ensures var n := |rows| - 1;
            Updates(db, rows) == Updates(db, rows[..n]) + if FillsSomething(db, rows, n) then {n} else {}
  {
    var n := |rows| - 1;
    var after := Updates(db, rows[..n]) + if FillsSomething(db, rows, n) then {n} else {};
    forall i: nat
      ensures i in Updates(db, rows) <==> i in after
    {
      if i < n {
        FillsStays(db, rows, n, i);
      }
    }
  }

  lemma {:induction false} UpdatedCountIs(db: Db, rows: seq<Prepared>, codes: nat -> Value)
    requires Valid(db)
    ensures UpdatedCount(db, rows, codes) == |Updates(db, rows)|
  {
    if rows != [] {
      UpdatedCountIs(db, rows[..|rows| - 1], codes);
      LastFillsIff(db, rows, codes);
      UpdatesGrow(db, rows);
    } else {
      assert Updates(db, rows) == {};
    }
  }

  // ---------------------------------------------------------------------------------------
  // When it goes through, and what it reports

  /** An import is rolled back, and then changes nothing, just when two rows about nobody stored
      have one email. It reports as updated the rows that filled something. */
  lemma RolledBackIff(db: Db, rows: seq<Prepared>, codes: nat -> Value)
    requires Valid(db)
    ensures var (after, report) := Commit(db, rows, codes);
            && (report.None? <==> exists i, j ::
                  0 <= i < j < |rows| && New(db, rows[i]) && New(db, rows[j]) && rows[i].email == rows[j].email)
            && (report.None? ==> after == db)
            && (report.Some? ==> report.value.updated == |Updates(db, rows)|)
  {
    RepeatedIff(db, rows, codes);
    UpdatedCountIs(db, rows, codes);
  }

  lemma {:induction false} RepeatedIff(db: Db, rows: seq<Prepared>, codes: nat -> Value)
    requires Valid(db)
    ensures Repeated(PlanRows(db, rows, codes).creations) <==>
              exists i, j ::
                0 <= i < j < |rows| && New(db, rows[i]) && New(db, rows[j]) && rows[i].email == rows[j].email
  {
    var creations := PlanRows(db, rows, codes).creations;
    if i, j :| 0 <= i < j < |rows| && New(db, rows[i]) && New(db, rows[j]) && rows[i].email == rows[j].email {
      AboutIsTarget(db, rows[i], 0);
      AboutIsTarget(db, rows[j], 0);
      PlanHoldsNew(db, rows, codes, i);
      PlanHoldsNew(db, rows, codes, j);
      NewCountGrows(db, rows, i, j);
      assert creations[NewCount(db, rows[..i])].email == creations[NewCount(db, rows[..j])].email;
    }
    if a, b :| 0 <= a < b < |creations| && creations[a].email == creations[b].email {
      var i := NewRowOf(db, rows, codes, a);
      var j := NewRowOf(db, rows, codes, b);
      assert i != j;
      var first, second := if i < j then i else j, if i < j then j else i;
      assert rows[first].email == rows[second].email;
    }
  }

  /** The row that the k-th new user is made from. */
  lemma {:induction false} NewRowOf(db: Db, rows: seq<Prepared>, codes: nat -> Value, k: nat) returns (i: nat)
    requires Valid(db) && k < |PlanRows(db, rows, codes).creations|
    ensures i < |rows| && New(db, rows[i]) && NewCount(db, rows[..i]) == k
    ensures PlanRows(db, rows, codes).creations[k].email == rows[i].email
  {
    var n := |rows| - 1;
    PlanLoadsStored(db, rows[..n], codes);
    if k < |PlanRows(db, rows[..n], codes).creations| {
      i := NewRowOf(db, rows[..n], codes, k);
      assert rows[..n][..i] == rows[..i];
    } else {
      i := n;
      AboutIsTarget(db, rows[i], 0);
    }
  }

  // ---------------------------------------------------------------------------------------
  // Enrolment, for every batch

  /** Whom an email stands for once the users are written: the user that the last of its rows to
      name one names, else the holder of the email. */
  ghost predicate StandsFor(db: Db, after: Db, rows: seq<Prepared>, email: string, id: int) {
    if k :| 0 <= k < |rows| && LastNaming(db, rows, email, k) then Named(db, rows[k], id)
    else email in after.emails && after.emails[email] == id
  }

  ghost predicate Naming(db: Db, rows: seq<Prepared>, email: string, k: int) {
    0 <= k < |rows| && rows[k].email == email && exists id <- db.users :: Named(db, rows[k], id)
  }

  ghost predicate LastNaming(db: Db, rows: seq<Prepared>, email: string, k: int) {
    Naming(db, rows, email, k) && forall j | k < j < |rows| :: !Naming(db, rows, email, j)
  }

  lemma ByIdIsNamed(db: Db, p: Prepared)
    ensures ById(db, p).Some? <==> exists id <- db.users :: Named(db, p, id)
    ensures forall id :: Named(db, p, id) <==> ById(db, p) == Some(id)
  {
    if ById(db, p).Some? {
      assert Named(db, p, p.matchId.value);
    }
  }

  lemma {:induction false} OwnerIs(db: Db, emails: map<string, int>, rows: seq<Prepared>, email: string)
    ensures forall k :: LastNaming(db, rows, email, k) ==> Owner(db, emails, rows, email) == ById(db, rows[k])
    ensures (forall k :: !LastNaming(db, rows, email, k)) ==>
              Owner(db, emails, rows, email) == if email in emails then Some(emails[email]) else None
  {
    if rows != [] {
      var n := |rows| - 1;
      OwnerIs(db, emails, rows[..n], email);
      ByIdIsNamed(db, rows[n]);
      if rows[n].email == email && ById(db, rows[n]).Some? {
        assert LastNaming(db, rows, email, n);
      } else {
        assert !Naming(db, rows, email, n);
        forall k
          ensures LastNaming(db, rows, email, k) <==> LastNaming(db, rows[..n], email, k)
        {
          assert forall j | 0 <= j < n :: Naming(db, rows, email, j) <==> Naming(db, rows[..n], email, j);
        }
      }
    }
  }

  lemma StandsForIsOwner(db: Db, rows: seq<Prepared>, codes: nat -> Value, email: string, id: int)
    requires Valid(db) && Commit(db, rows, codes).1.Some?
    ensures StandsFor(db, Commit(db, rows, codes).0, rows, email, id) <==>
            OwnerAfter(db, rows, codes)(email) == Some(id)
  {
    OwnerIs(db, Inserted(db, rows, codes).emails, rows, email);
    if k :| 0 <= k < |rows| && LastNaming(db, rows, email, k) {
      ByIdIsNamed(db, rows[k]);
    } else {
      assert forall k :: !LastNaming(db, rows, email, k);
    }
  }

  /** The row lists the course, the course exists, and the holder of its email was not in it. */
  predicate Asks(db: Db, p: Prepared, course: int) {
    && course in p.courses && course in db.courses
    && !(p.email in db.emails && (db.emails[p.email], course) in db.enrolled)
  }

  lemma SentPairWasAsked(db: Db, rows: seq<Prepared>, owner: string -> Option<int>, id: int, course: int)
    requires (id, course) in Pairs(EnrolKeys(db, rows), owner)
    ensures exists p <- rows :: Asks(db, p, course) && owner(p.email) == Some(id)
  {
    EnrolKeysFacts(db, rows);
    PairsMembers(EnrolKeys(db, rows), owner);
    var key :| key in EnrolKeys(db, rows) && owner(key.0) == Some(id) && key.1 == course;
    var i :| 0 <= i < |rows| && rows[i].email == key.0 && Wants(db, rows, i, course);
    assert rows[i] in rows && Asks(db, rows[i], course);
  }

  lemma AskedPairIsSent(db: Db, rows: seq<Prepared>, owner: string -> Option<int>, p: Prepared, id: int, course: int)
    requires p in rows && Asks(db, p, course) && owner(p.email) == Some(id)
    ensures (id, course) in Pairs(EnrolKeys(db, rows), owner)
  {
    EnrolKeysFacts(db, rows);
    PairsMembers(EnrolKeys(db, rows), owner);
    var i :| 0 <= i < |rows| && rows[i] == p;
    assert Wants(db, rows, i, course);
    var key := (p.email, course);
    assert key in EnrolKeys(db, rows) && owner(key.0) == Some(id) && key.1 == course;
  }

  lemma PairIsSentIff(db: Db, rows: seq<Prepared>, codes: nat -> Value, id: int, course: int)
    requires Valid(db)
    ensures (id, course) in NewPairs(db, rows, codes) <==>
            exists p <- rows :: Asks(db, p, course) && OwnerAfter(db, rows, codes)(p.email) == Some(id)
  {
    var owner := OwnerAfter(db, rows, codes);
    if (id, course) in NewPairs(db, rows, codes) {
      SentPairWasAsked(db, rows, owner, id, course);
    }
    if p :| p in rows && Asks(db, p, course) && owner(p.email) == Some(id) {
      AskedPairIsSent(db, rows, owner, p, id, course);
    }
  }

  /** Whatever the batch, the enrolments after it are those before and one for each row that asks,
      for the user that the row's email stands for; a joined event is recorded for each new one. */
  lemma EnrolmentsAre(db: Db, rows: seq<Prepared>, codes: nat -> Value, id: int, course: int)
    requires Valid(db) && Commit(db, rows, codes).1.Some?
    ensures var after := Commit(db, rows, codes).0;
            && ((id, course) in after.enrolled <==>
                  || (id, course) in db.enrolled
                  || exists p <- rows :: Asks(db, p, course) && StandsFor(db, after, rows, p.email, id))
            && db.joined <= after.joined
            && ((id, course) in after.joined[|db.joined|..] <==> (id, course) in after.enrolled - db.enrolled)
  {
    var after := Commit(db, rows, codes).0;
    EventsAreDistinctIff(db, rows, codes);
    assert (id, course) in after.joined[|db.joined|..] <==> (id, course) in Members(after.joined[|db.joined|..]);
    CommittedEnrolled(db, rows, codes, (id, course));
    PairIsSentIff(db, rows, codes, id, course);
    forall p <- rows
      ensures StandsFor(db, after, rows, p.email, id) <==> OwnerAfter(db, rows, codes)(p.email) == Some(id)
    {
      StandsForIsOwner(db, rows, codes, p.email, id);
    }
  }

  // ---------------------------------------------------------------------------------------
  // The ids in the report

  /** Some row with this row's email names a stored user. */
  ghost predicate Overruled(db: Db, rows: seq<Prepared>, i: int)
    requires 0 <= i < |rows|
  {
    exists k :: Naming(db, rows, rows[i].email, k)
  }

  lemma {:induction false} LastOfThem(db: Db, rows: seq<Prepared>, email: string, k: int) returns (last: int)
    requires Naming(db, rows, email, k)
    ensures LastNaming(db, rows, email, last)
    decreases |rows| - k
  {
    if j :| k < j < |rows| && Naming(db, rows, email, j) {
      last := LastOfThem(db, rows, email, j);
    } else {
      last := k;
    }
  }

  /** The report names as created, row by row, whom the email of each new row stands for. */
  lemma {:induction false} CreatedIdsAre(db: Db, rows: seq<Prepared>, owner: string -> Option<int>, i: nat)
    requires i < |rows| && Target(db, rows[i]).None?
    requires forall p <- rows :: Target(db, p).None? ==> owner(p.email).Some?
    ensures var ids, k := CreatedIds(db, rows, owner), NewCount(db, rows[..i]);
            |ids| == NewCount(db, rows) && k < |ids| && Some(ids[k]) == owner(rows[i].email)
  {
    var n := |rows| - 1;
    CreatedIdsSize(db, rows[..n], owner);
    CreatedIdsSize(db, rows, owner);
    if i < n {
      assert rows[..n][..i] == rows[..i];
      CreatedIdsAre(db, rows[..n], owner, i);
    }
  }

  lemma {:induction false} CreatedIdsSize(db: Db, rows: seq<Prepared>, owner: string -> Option<int>)
    requires forall p <- rows :: Target(db, p).None? ==> owner(p.email).Some?
    ensures |CreatedIds(db, rows, owner)| == NewCount(db, rows)
  {
    if rows != [] {
      CreatedIdsSize(db, rows[..|rows| - 1], owner);
    }
  }

  lemma NewRowOwns(db: Db, rows: seq<Prepared>, codes: nat -> Value, i: nat)
    requires Valid(db) && Commit(db, rows, codes).1.Some? && i < |rows| && New(db, rows[i])
    ensures var owner := OwnerAfter(db, rows, codes)(rows[i].email);
            && owner.Some?
            && (owner.value == db.nextId + NewCount(db, rows[..i]) <==> !Overruled(db, rows, i))
  {
    AboutIsTarget(db, rows[i], 0);
    PlanHoldsNew(db, rows, codes, i);
    InsertPutsEmail(db, PlanRows(db, rows, codes).creations, NewCount(db, rows[..i]));
    OwnerIs(db, Inserted(db, rows, codes).emails, rows, rows[i].email);
    if k :| Naming(db, rows, rows[i].email, k) {
      var last := LastOfThem(db, rows, rows[i].email, k);
      ByIdIsNamed(db, rows[last]);
    } else {
      assert forall k :: !LastNaming(db, rows, rows[i].email, k);
    }
  }

  /** One id is reported for every user created; they are the ids that were handed out, in order,
      if and only if no new row shares its email with a row that names a stored user. */
  lemma ReportedIdsAreNewIff(db: Db, rows: seq<Prepared>, codes: nat -> Value)
    requires Valid(db) && Commit(db, rows, codes).1.Some?
    ensures var (after, report) := Commit(db, rows, codes);
            && |report.value.createdIds| == report.value.created
            && ((forall k | 0 <= k < |report.value.createdIds| :: report.value.createdIds[k] == db.nextId + k) <==>
                  forall i | 0 <= i < |rows| :: New(db, rows[i]) ==> !Overruled(db, rows, i))
  {
    var owner := OwnerAfter(db, rows, codes);
    var ids := CreatedIds(db, rows, owner);
    forall p <- rows | Target(db, p).None?
      ensures owner(p.email).Some?
    {
      var i :| 0 <= i < |rows| && rows[i] == p;
      AboutIsTarget(db, p, 0);
      NewRowOwns(db, rows, codes, i);
    }
    CreatedIdsSize(db, rows, owner);
    PlanLoadsStored(db, rows, codes);
    if forall k | 0 <= k < |ids| :: ids[k] == db.nextId + k {
      forall i | 0 <= i < |rows| && New(db, rows[i])
        ensures !Overruled(db, rows, i)
      {
        NewRowIsReported(db, rows, codes, i);
      }
    }
    if forall i | 0 <= i < |rows| :: New(db, rows[i]) ==> !Overruled(db, rows, i) {
      forall k | 0 <= k < |ids|
        ensures ids[k] == db.nextId + k
      {
        var i := NewRowOf(db, rows, codes, k);
        NewRowIsReported(db, rows, codes, i);
      }
    }
  }

  lemma NewRowIsReported(db: Db, rows: seq<Prepared>, codes: nat -> Value, i: nat)
    requires Valid(db) && Commit(db, rows, codes).1.Some? && i < |rows| && New(db, rows[i])
    requires forall p <- rows :: Target(db, p).None? ==> OwnerAfter(db, rows, codes)(p.email).Some?
    ensures var ids, k := CreatedIds(db, rows, OwnerAfter(db, rows, codes)), NewCount(db, rows[..i]);
            k < |ids| && (ids[k] == db.nextId + k <==> !Overruled(db, rows, i))
  {
    AboutIsTarget(db, rows[i], 0);
    CreatedIdsAre(db, rows, OwnerAfter(db, rows, codes), i);
    NewRowOwns(db, rows, codes, i);
  }

  // ---------------------------------------------------------------------------------------
  // Which row of an email survives

  /** The rows of one email are picked out in file order. */
  lemma {:induction false} GroupPicksRows(a: seq<Prepared>, b: seq<Prepared>, p: Prepared, key: string,
                                          lower: string -> string)
    ensures Group(a + b, key, lower) == Group(a, key, lower) + Group(b, key, lower)
    ensures Group([p], key, lower) == if lower(p.email) == key then [p] else []
  {
    assert [p][..0] == [];
    if b == [] {
      assert a + b == a;
    } else {
      GroupPicksRows(a, b[..|b| - 1], p, key, lower);
      assert (a + b)[..|a + b| - 1] == a + b[..|b| - 1];
    }
  }

  ghost predicate NoneWith(rows: seq<Prepared>, key: string, lower: string -> string) {
    forall p <- rows :: lower(p.email) != key
  }

  /** The group of a row's email, and that the result holds what it collapses to. */
  lemma GroupAround(before: seq<Prepared>, p: Prepared, after: seq<Prepared>, strategy: Strategy,
                    lower: string -> string)
    ensures var key := lower(p.email);
            var group := Group(before, key, lower) + [p] + Group(after, key, lower);
            Collapse(group, strategy) in Dedupe(before + [p] + after, strategy, lower)
  {
    var key, rows := lower(p.email), before + [p] + after;
    GroupPicksRows(before + [p], after, p, key, lower);
    GroupPicksRows(before, [p], p, key, lower);
    OrderFacts(rows, lower);
    assert rows[|before|] == p;
    var k :| 0 <= k < |Order(rows, lower)| && Order(rows, lower)[k] == key;
    assert Dedupe(rows, strategy, lower)[k] == Collapse(Group(rows, key, lower), strategy);
  }

  /** The row with an email that no other row has survives as it is; of several the first survives,
      under "keep last" the last, and under "merge" the merge of them in file order. */
  lemma SurvivorIs(before: seq<Prepared>, p: Prepared, after: seq<Prepared>, strategy: Strategy,
                   lower: string -> string)
    ensures var key, result := lower(p.email), Dedupe(before + [p] + after, strategy, lower);
            && (NoneWith(before, key, lower) && NoneWith(after, key, lower) ==> p in result)
            && (strategy != KeepLast && strategy != Merge && NoneWith(before, key, lower) ==> p in result)
            && (strategy == KeepLast && NoneWith(after, key, lower) ==> p in result)
            && (strategy == Merge && !(NoneWith(before, key, lower) && NoneWith(after, key, lower)) ==>
                  MergeGroup(Group(before, key, lower) + [p] + Group(after, key, lower)) in result)
  {
    var key := lower(p.email);
    GroupAround(before, p, after, strategy, lower);
    EmptyGroupIff(before, key, lower);
    EmptyGroupIff(after, key, lower);
  }

  lemma {:induction false} EmptyGroupIff(rows: seq<Prepared>, key: string, lower: string -> string)
    ensures Group(rows, key, lower) == [] <==> NoneWith(rows, key, lower)
  {
    if rows != [] {
      var short, last := rows[..|rows| - 1], rows[|rows| - 1];
      EmptyGroupIff(short, key, lower);
      assert forall p :: p in rows <==> p in short || p == last;
    }
  }
}
