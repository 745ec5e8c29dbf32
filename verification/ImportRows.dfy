/**
 Collapsing the rows of an import file that carry the same email. `lower` stands for lower-casing
 an email; nothing here depends on what it does to the letters.
 */
module ImportRows {
  import opened Wrappers

  datatype Value = Null | Text(text: string)

  type Fields = map<string, Value>

  predicate Blank(v: Value) { v == Null || v == Text("") }

  function Get(fields: Fields, key: string): Value {
    if key in fields then fields[key] else Null
  }

  datatype Prepared = Prepared(
    row: nat, email: string, identity: Fields, builtins: Fields, custom: Fields,
    courses: seq<int>, matchId: Option<int>)

  datatype Strategy = KeepFirst | KeepLast | Merge | OtherStrategy

  // ---------------------------------------------------------------------------------------
  // Merging a group

  predicate Filling(into: Fields, from: Fields, key: string) {
    Blank(Get(into, key)) && !Blank(Get(from, key))
  }

  predicate AnyFilling(into: Fields, from: Fields) {
    exists key :: key in from && Filling(into, from, key)
  }

  /** Non-blank values of `from` fill blank or missing places of `into`. */
  function Filled(into: Fields, from: Fields): Fields {
    map key | key in into.Keys + from.Keys && (key in into || Filling(into, from, key)) ::
      if Filling(into, from, key) then from[key] else into[key]
  }

  /** The course ids not met before, appended in their order. */
  function Joined(courses: seq<int>, more: seq<int>): seq<int>
  {
    if more == [] then courses
    else
      var before := Joined(courses, more[..|more| - 1]);
      var last := more[|more| - 1];
      if last in before then before else before + [last]
  }

  function MergeTwo(merged: Prepared, row: Prepared): Prepared {
    merged.(identity := Filled(merged.identity, row.identity - {"email"}),
            builtins := Filled(merged.builtins, row.builtins),
            custom := Filled(merged.custom, row.custom),
            courses := Joined(merged.courses, row.courses))
  }

  /** The merged row starts from the first one, without its matched user. */
  function MergeGroup(group: seq<Prepared>): Prepared
    requires group != []
  {
    if |group| == 1 then group[0].(matchId := None)
    else MergeTwo(MergeGroup(group[..|group| - 1]), group[|group| - 1])
  }

  /** The blanks of `into` filled from the part of a map gone through so far. */
  ghost predicate FilledSoFar(into: Fields, done: Fields, filled: Fields, changed: bool) {
    filled == Filled(into, done) && changed == AnyFilling(into, done)
  }

  lemma FillStep(into: Fields, done: Fields, filled: Fields, changed: bool, key: string, value: Value)
    requires FilledSoFar(into, done, filled, changed) && key !in done
    ensures var fills := Blank(Get(filled, key)) && !Blank(value);
            FilledSoFar(into, done[key := value], if fills then filled[key := value] else filled, changed || fills)
  {
  }

  lemma FillNone(into: Fields)
    ensures FilledSoFar(into, map[], into, false)
  {
  }

  method FillBlanks(into: Fields, from: Fields) returns (filled: Fields, changed: bool)
    ensures filled == Filled(into, from)
    ensures changed == AnyFilling(into, from)
  {
    filled, changed := into, false;
    var left := from.Keys;
    ghost var done: Fields := map[];
    FillNone(into);
    while left != {}
      invariant left <= from.Keys
      invariant done.Keys == from.Keys - left
      invariant forall key :: key in done ==> done[key] == from[key]
      invariant FilledSoFar(into, done, filled, changed)
      decreases |left|
    {
      var key := Choose(left);
      FillStep(into, done, filled, changed, key, from[key]);
      left := left - {key};
      done := done[key := from[key]];
      if Blank(Get(filled, key)) && !Blank(from[key]) {
        filled := filled[key := from[key]];
        changed := true;
      }
    }
    assert done == from;
  }

  method MergePreparedRows(group: seq<Prepared>) returns (merged: Prepared)
    requires group != []
    ensures merged == MergeGroup(group)
  {
    merged := group[0].(matchId := None);
    assert group[..1] == [group[0]];
    for i := 1 to |group|
      invariant merged == MergeGroup(group[..i])
    {
      var row := group[i];
      assert group[..i + 1][..i] == group[..i];
      var identity, _ := FillBlanks(merged.identity, row.identity - {"email"});
      var builtins, _ := FillBlanks(merged.builtins, row.builtins);
      var custom, _ := FillBlanks(merged.custom, row.custom);
      var courses := merged.courses;
      var seen := set c | c in courses;
      for j := 0 to |row.courses|
        invariant courses == Joined(merged.courses, row.courses[..j])
        invariant seen == set c | c in courses
      {
        assert row.courses[..j + 1][..j] == row.courses[..j];
        if row.courses[j] !in seen {
          seen := seen + {row.courses[j]};
          courses := courses + [row.courses[j]];
        }
      }
      assert row.courses[..|row.courses|] == row.courses;
      merged := merged.(identity := identity, builtins := builtins, custom := custom, courses := courses);
    }
    assert group[..|group|] == group;
  }

  /** The first non-blank value of a key over a list of field maps; otherwise the first map's. */
  function FirstFilled(maps: seq<Fields>, key: string): Value
    requires maps != []
  {
    if |maps| == 1 || !Blank(Get(maps[0], key)) then Get(maps[0], key)
    else
      var rest := FirstFilled(maps[1..], key);
      if Blank(rest) then Get(maps[0], key) else rest
  }

  function FillAll(maps: seq<Fields>): Fields
    requires maps != []
  {
    if |maps| == 1 then maps[0] else Filled(FillAll(maps[..|maps| - 1]), maps[|maps| - 1])
  }

  lemma {:induction false} FirstFilledExtends(maps: seq<Fields>, last: Fields, key: string)
    requires maps != []
    ensures FirstFilled(maps + [last], key)
         == if Blank(FirstFilled(maps, key)) && !Blank(Get(last, key)) then Get(last, key) else FirstFilled(maps, key)
    decreases |maps|
  {
    assert (maps + [last])[1..] == maps[1..] + [last];
    if |maps| == 1 {
      assert (maps + [last])[1..] == [last];
    } else {
      FirstFilledExtends(maps[1..], last, key);
    }
  }

  /** Filling maps in one after the other leaves each key with its first non-blank value. */
  lemma {:induction false} FillingTakesTheFirst(maps: seq<Fields>, key: string)
    requires maps != []
    ensures Get(FillAll(maps), key) == FirstFilled(maps, key)
    ensures key in FillAll(maps) <==> key in maps[0] || !Blank(FirstFilled(maps, key))
  {
    if |maps| > 1 {
      var short := maps[..|maps| - 1];
      FillingTakesTheFirst(short, key);
      FirstFilledExtends(short, maps[|maps| - 1], key);
      assert maps == short + [maps[|maps| - 1]];
    }
  }

  function Builtins(group: seq<Prepared>): (maps: seq<Fields>)
    ensures |maps| == |group|
  {
    seq(|group|, i requires 0 <= i < |group| => group[i].builtins)
  }

  function Customs(group: seq<Prepared>): (maps: seq<Fields>)
    ensures |maps| == |group|
  {
    seq(|group|, i requires 0 <= i < |group| => group[i].custom)
  }

  /** The identity fields of the first row, and those of the others without their email. */
  function Identities(group: seq<Prepared>): (maps: seq<Fields>)
    ensures |maps| == |group|
  {
    seq(|group|, i requires 0 <= i < |group| => if i == 0 then group[0].identity else group[i].identity - {"email"})
  }

  lemma {:induction false} MergeFillsInOrder(group: seq<Prepared>)
    requires group != []
    ensures MergeGroup(group).identity == FillAll(Identities(group))
    ensures MergeGroup(group).builtins == FillAll(Builtins(group))
    ensures MergeGroup(group).custom == FillAll(Customs(group))
    ensures MergeGroup(group).email == group[0].email && MergeGroup(group).row == group[0].row
    ensures MergeGroup(group).matchId == None
  {
    if |group| > 1 {
      var n := |group| - 1;
      MergeFillsInOrder(group[..n]);
      assert Identities(group)[..n] == Identities(group[..n]);
      assert Builtins(group)[..n] == Builtins(group[..n]);
      assert Customs(group)[..n] == Customs(group[..n]);
    }
  }

  /** Under merge every field holds the first non-blank value of its group, whichever of the
      three maps it is in; only the first row's email counts. */
  lemma MergeTakesFirstNonBlank(group: seq<Prepared>, key: string)
    requires group != []
    ensures var merged := MergeGroup(group);
            && Get(merged.identity, key) == FirstFilled(Identities(group), key)
            && Get(merged.builtins, key) == FirstFilled(Builtins(group), key)
            && Get(merged.custom, key) == FirstFilled(Customs(group), key)
            && merged.email == group[0].email
            && Get(merged.identity, "email") == Get(group[0].identity, "email")
  {
    MergeFillsInOrder(group);
    FillingTakesTheFirst(Identities(group), key);
    FillingTakesTheFirst(Builtins(group), key);
    FillingTakesTheFirst(Customs(group), key);
    FillingTakesTheFirst(Identities(group), "email");
    OnlyTheFirstCounts(Identities(group), "email");
  }

  lemma {:induction false} OnlyTheFirstCounts(maps: seq<Fields>, key: string)
    requires maps != [] && forall i :: 0 < i < |maps| ==> key !in maps[i]
    ensures FirstFilled(maps, key) == Get(maps[0], key)
    decreases |maps|
  {
    if |maps| > 1 {
      assert forall i :: 0 < i < |maps[1..]| ==> maps[1..][i] == maps[i + 1];
      OnlyTheFirstCounts(maps[1..], key);
    }
  }

  // ---------------------------------------------------------------------------------------
  // Course ids

  function AllCourses(group: seq<Prepared>): seq<int> {
    if group == [] then [] else AllCourses(group[..|group| - 1]) + group[|group| - 1].courses
  }

  /** Each value once, where it first occurs. */
  function FirstOccurrences(s: seq<int>): seq<int> {
    if s == [] then []
    else
      var before := FirstOccurrences(s[..|s| - 1]);
      if s[|s| - 1] in before then before else before + [s[|s| - 1]]
  }

  ghost predicate Distinct<A(!new)>(s: seq<A>) { forall i, j :: 0 <= i < j < |s| ==> s[i] != s[j] }

  lemma {:induction false} FirstOccurrencesFacts(s: seq<int>)
    ensures Distinct(FirstOccurrences(s))
    ensures forall c :: c in FirstOccurrences(s) <==> c in s
    ensures Distinct(s) ==> FirstOccurrences(s) == s
  {
    if s != [] {
      var short, last := s[..|s| - 1], s[|s| - 1];
      FirstOccurrencesFacts(short);
      assert s == short + [last];
      if Distinct(s) {
        assert forall i :: 0 <= i < |short| ==> short[i] == s[i] != last;
      }
    }
  }

  lemma {:induction false} JoinedIsFirstOccurrences(all: seq<int>, more: seq<int>)
    ensures Joined(FirstOccurrences(all), more) == FirstOccurrences(all + more)
  {
    if more == [] {
      assert all + more == all;
    } else {
      var short := more[..|more| - 1];
      JoinedIsFirstOccurrences(all, short);
      assert (all + more)[..|all + more| - 1] == all + short;
    }
  }

  lemma {:induction false} JoinedKeepsPrefix(courses: seq<int>, more: seq<int>)
    ensures courses <= Joined(courses, more)
  {
    if more != [] {
      JoinedKeepsPrefix(courses, more[..|more| - 1]);
    }
  }

  lemma {:induction false} MergedCourses(group: seq<Prepared>)
    requires group != []
    ensures group[0].courses <= MergeGroup(group).courses
    ensures Distinct(group[0].courses) ==> MergeGroup(group).courses == FirstOccurrences(AllCourses(group))
  {
    if |group| == 1 {
      assert group[..0] == [];
      assert AllCourses(group) == group[0].courses;
      FirstOccurrencesFacts(group[0].courses);
    } else {
      var short, last := group[..|group| - 1], group[|group| - 1];
      MergedCourses(short);
      JoinedKeepsPrefix(MergeGroup(short).courses, last.courses);
      JoinedIsFirstOccurrences(AllCourses(short), last.courses);
    }
  }

  /** Merged course ids are the group's ids, each once in first-occurrence order, if and only if
      the first row did not repeat an id itself: its own list is copied as it is. */
  lemma MergedCoursesAreDistinctIff(group: seq<Prepared>)
    requires group != []
    ensures MergeGroup(group).courses == FirstOccurrences(AllCourses(group)) <==> Distinct(group[0].courses)
  {
    MergedCourses(group);
    FirstOccurrencesFacts(AllCourses(group));
    var merged, first := MergeGroup(group).courses, group[0].courses;
    if Distinct(merged) {
      assert forall i :: 0 <= i < |first| ==> first[i] == merged[i];
    }
  }

  // ---------------------------------------------------------------------------------------
  // Deduping

  /** The rows of one email, in file order. */
  function Group(rows: seq<Prepared>, key: string, lower: string -> string): seq<Prepared> {
    if rows == [] then []
    else
      var before := Group(rows[..|rows| - 1], key, lower);
      var last := rows[|rows| - 1];
      if lower(last.email) == key then before + [last] else before
  }

  /** The lower-cased emails in first-occurrence order. */
  function Order(rows: seq<Prepared>, lower: string -> string): seq<string> {
    if rows == [] then []
    else
      var before := Order(rows[..|rows| - 1], lower);
      var key := lower(rows[|rows| - 1].email);
      if key in before then before else before + [key]
  }

  function Collapse(group: seq<Prepared>, strategy: Strategy): Prepared
    requires group != []
  {
    if |group| == 1 then group[0]
    else
      match strategy
      case KeepLast => group[|group| - 1]
      case Merge => MergeGroup(group)
      case _ => group[0]
  }

  lemma {:induction false} OrderFacts(rows: seq<Prepared>, lower: string -> string)
    ensures Distinct(Order(rows, lower))
    ensures forall i :: 0 <= i < |rows| ==> lower(rows[i].email) in Order(rows, lower)
    ensures forall key :: key in Order(rows, lower) ==> Group(rows, key, lower) != []
    ensures forall key :: key !in Order(rows, lower) ==> Group(rows, key, lower) == []
  {
    if rows != [] {
      OrderFacts(rows[..|rows| - 1], lower);
    }
  }

  function Dedupe(rows: seq<Prepared>, strategy: Strategy, lower: string -> string): (result: seq<Prepared>)
    ensures |result| == |Order(rows, lower)|
  {
    OrderFacts(rows, lower);
    var order := Order(rows, lower);
    seq(|order|, i requires 0 <= i < |order| => Collapse(Group(rows, order[i], lower), strategy))
  }

  method GroupByEmail(rows: seq<Prepared>, lower: string -> string)
    returns (byEmail: map<string, seq<Prepared>>, order: seq<string>)
    ensures order == Order(rows, lower)
    ensures forall key :: key in byEmail <==> key in order
    ensures forall key :: key in byEmail ==> byEmail[key] == Group(rows, key, lower)
  {
    byEmail, order := map[], [];
    for i := 0 to |rows|
      invariant order == Order(rows[..i], lower)
      invariant forall key :: key in byEmail <==> key in order
      invariant forall key :: key in byEmail ==> byEmail[key] == Group(rows[..i], key, lower)
    {
      OrderFacts(rows[..i], lower);
      assert rows[..i + 1][..i] == rows[..i];
      var email := lower(rows[i].email);
      if email !in byEmail {
        byEmail := byEmail[email := []];
        order := order + [email];
      }
      byEmail := byEmail[email := byEmail[email] + [rows[i]]];
    }
    assert rows[..|rows|] == rows;
  }

  method CollapseGroup(group: seq<Prepared>, strategy: Strategy) returns (row: Prepared)
    requires group != []
    ensures row == Collapse(group, strategy)
  {
    if |group| == 1 {
      row := group[0];
    } else if strategy == KeepLast {
      row := group[|group| - 1];
    } else if strategy == Merge {
      row := MergePreparedRows(group);
    } else {
      row := group[0];
    }
  }

  method DedupePreparedRows(rows: seq<Prepared>, strategy: Strategy, lower: string -> string)
    returns (result: seq<Prepared>)
    ensures result == Dedupe(rows, strategy, lower)
  {
    var byEmail, order := GroupByEmail(rows, lower);
    OrderFacts(rows, lower);
    result := [];
    for i := 0 to |order|
      invariant |result| == i
      invariant forall k :: 0 <= k < i ==> result[k] == Collapse(Group(rows, order[k], lower), strategy)
    {
      var row := CollapseGroup(byEmail[order[i]], strategy);
      result := result + [row];
    }
  }

  lemma {:induction false} GroupSharesItsKey(rows: seq<Prepared>, key: string, lower: string -> string)
    ensures forall k :: 0 <= k < |Group(rows, key, lower)| ==> lower(Group(rows, key, lower)[k].email) == key
  {
    if rows != [] {
      GroupSharesItsKey(rows[..|rows| - 1], key, lower);
    }
  }

  lemma CollapseKeepsKey(group: seq<Prepared>, strategy: Strategy)
    requires group != []
    ensures || Collapse(group, strategy).email == group[0].email
            || Collapse(group, strategy).email == group[|group| - 1].email
  {
    MergeFillsInOrder(group);
  }

  /** The lower-cased emails of a list of rows. */
  function Emails(rows: seq<Prepared>, lower: string -> string): (emails: seq<string>)
    ensures |emails| == |rows|
  {
    seq(|rows|, i requires 0 <= i < |rows| => lower(rows[i].email))
  }

  /** Whatever the strategy, deduping leaves one row per lower-cased email, in the order the
      emails first occur, and loses none. */
  lemma DedupeKeepsEmails(rows: seq<Prepared>, strategy: Strategy, lower: string -> string)
    ensures Emails(Dedupe(rows, strategy, lower), lower) == Order(rows, lower)
    ensures Distinct(Emails(Dedupe(rows, strategy, lower), lower))
    ensures forall i :: 0 <= i < |rows| ==> lower(rows[i].email) in Emails(Dedupe(rows, strategy, lower), lower)
  {
    OrderFacts(rows, lower);
    var order, result := Order(rows, lower), Dedupe(rows, strategy, lower);
    forall i | 0 <= i < |order| ensures lower(result[i].email) == order[i] {
      var group := Group(rows, order[i], lower);
      assert order[i] in order;
      GroupSharesItsKey(rows, order[i], lower);
      CollapseKeepsKey(group, strategy);
    }
    assert Emails(result, lower) == order;
  }

  /** The position where a key first occurs. */
  function FirstAt(rows: seq<Prepared>, key: string, lower: string -> string): nat {
    if rows == [] || lower(rows[0].email) == key then 0 else 1 + FirstAt(rows[1..], key, lower)
  }

  lemma {:induction false} FirstAtExtends(rows: seq<Prepared>, last: Prepared, key: string, lower: string -> string)
    ensures FirstAt(rows + [last], key, lower)
         == if FirstAt(rows, key, lower) < |rows| then FirstAt(rows, key, lower)
            else if lower(last.email) == key then |rows| else |rows| + 1
    ensures FirstAt(rows, key, lower) <= |rows|
  {
    if rows != [] {
      assert (rows + [last])[1..] == rows[1..] + [last];
      FirstAtExtends(rows[1..], last, key, lower);
    }
  }

  /** The order is by first occurrence: earlier in the order means first met earlier. */
  lemma {:induction false} OrderIsByFirstOccurrence(rows: seq<Prepared>, lower: string -> string, i: nat, j: nat)
    requires i < j < |Order(rows, lower)|
    ensures FirstAt(rows, Order(rows, lower)[i], lower) < FirstAt(rows, Order(rows, lower)[j], lower) < |rows|
  {
    var short, last := rows[..|rows| - 1], rows[|rows| - 1];
    assert rows == short + [last];
    var order, before := Order(rows, lower), Order(short, lower);
    FirstAtExtends(short, last, order[i], lower);
    FirstAtExtends(short, last, order[j], lower);
    if j < |before| {
      OrderIsByFirstOccurrence(short, lower, i, j);
    } else {
      NotInOrder(short, order[j], lower);
      InOrder(short, i, lower);
    }
  }

  lemma {:induction false} NotInOrder(rows: seq<Prepared>, key: string, lower: string -> string)
    requires key !in Order(rows, lower)
    ensures FirstAt(rows, key, lower) == |rows|
  {
    if rows != [] {
      var short, last := rows[..|rows| - 1], rows[|rows| - 1];
      assert rows == short + [last];
      NotInOrder(short, key, lower);
      FirstAtExtends(short, last, key, lower);
      assert lower(last.email) in Order(rows, lower);
    }
  }

  lemma {:induction false} InOrder(rows: seq<Prepared>, i: nat, lower: string -> string)
    requires i < |Order(rows, lower)|
    ensures FirstAt(rows, Order(rows, lower)[i], lower) < |rows|
  {
    var short, last := rows[..|rows| - 1], rows[|rows| - 1];
    assert rows == short + [last];
    FirstAtExtends(short, last, Order(rows, lower)[i], lower);
    if i < |Order(short, lower)| {
      InOrder(short, i, lower);
    }
  }

  lemma {:induction false} OrderOfDistinct(rows: seq<Prepared>, lower: string -> string)
    requires Distinct(Emails(rows, lower))
    ensures Order(rows, lower) == Emails(rows, lower)
  {
    if rows != [] {
      var n := |rows| - 1;
      var emails := Emails(rows, lower);
      assert Emails(rows[..n], lower) == emails[..n];
      OrderOfDistinct(rows[..n], lower);
      assert forall i :: 0 <= i < n ==> emails[..n][i] != emails[n];
      assert emails == emails[..n] + [emails[n]];
    }
  }

  lemma {:induction false} NoSuchEmail(rows: seq<Prepared>, key: string, lower: string -> string)
    requires forall i :: 0 <= i < |rows| ==> lower(rows[i].email) != key
    ensures Group(rows, key, lower) == []
  {
    if rows != [] {
      NoSuchEmail(rows[..|rows| - 1], key, lower);
    }
  }

  lemma {:induction false} GroupOfDistinct(rows: seq<Prepared>, i: nat, lower: string -> string)
    requires Distinct(Emails(rows, lower)) && i < |rows|
    ensures Group(rows, lower(rows[i].email), lower) == [rows[i]]
  {
    var n := |rows| - 1;
    var emails := Emails(rows, lower);
    assert Emails(rows[..n], lower) == emails[..n];
    assert forall k :: 0 <= k < n ==> emails[k] != emails[n];
    if i < n {
      assert rows[..n][i] == rows[i] && emails[i] != emails[n];
      GroupOfDistinct(rows[..n], i, lower);
    } else {
      forall k | 0 <= k < n ensures lower(rows[..n][k].email) != lower(rows[n].email) {
        assert emails[k] != emails[n];
      }
      NoSuchEmail(rows[..n], lower(rows[n].email), lower);
    }
  }

  /** Deduping rows that were deduped already changes nothing, whichever strategies are used. */
  lemma DedupeIsIdempotent(rows: seq<Prepared>, first: Strategy, second: Strategy, lower: string -> string)
    ensures Dedupe(Dedupe(rows, first, lower), second, lower) == Dedupe(rows, first, lower)
  {
    var once := Dedupe(rows, first, lower);
    DedupeKeepsEmails(rows, first, lower);
    OrderOfDistinct(once, lower);
    forall i | 0 <= i < |once| ensures Dedupe(once, second, lower)[i] == once[i] {
      GroupOfDistinct(once, i, lower);
    }
  }
}
