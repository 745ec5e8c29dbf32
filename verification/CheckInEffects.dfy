/**
 What each check-in operation answers and writes, column by column, told from the row before, the
 clock and the arguments alone.
 */
module CheckInEffects {
  import opened Wrappers
  import opened CheckIn
  import opened CheckInSafety

  // ---------------------------------------------------------------------------------------
  // The bounds of a session on the tenant's clock

  /** The session starts on its local date when the local clock shows `timeFrom`, and ends the next
      time it shows `timeTo`. */
  lemma BoundsOnTheLocalClock(session: Session, offset: int)
    ensures var start, end := StartOf(session, offset), EndOf(session, offset);
            && (start + offset) / 86400 == (session.date + offset) / 86400
            && (start + offset) % 86400 == session.timeFrom
            && (end + offset) % 86400 == session.timeTo
            && 0 < end - start <= 86400
  {
  }

  predicate Over(s: State, key: (int, int))
    requires key.1 in s.sessions
  {
    s.clock > EndOf(s.sessions[key.1], s.offset)
  }

  /** From `grace` minutes before the start; a negative grace counts as none. */
  predicate InWindow(s: State, key: (int, int))
    requires key.1 in s.sessions
  {
    && s.clock >= StartOf(s.sessions[key.1], s.offset) - (if s.grace > 0 then s.grace * 60 else 0)
    && s.clock <= EndOf(s.sessions[key.1], s.offset)
  }

  /** Nothing but the row under `key` differs, and no record is made. */
  ghost predicate OnlyRow(s: State, s': State, key: (int, int)) {
    key in s.rows && key in s'.rows && s' == s.(rows := s.rows[key := s'.rows[key]])
  }

  // ---------------------------------------------------------------------------------------
  // Check-in

  /** The i-th key is of a live row without a check-in. */
  ghost predicate Waits(s: State, keys: seq<(int, int)>, i: int) {
    && 0 <= i < |keys| && keys[i] in s.rows && keys[i].1 in s.sessions
    && !s.rows[keys[i]].deleted && s.rows[keys[i]].checkin.None?
  }

  /** The first waiting row whose session is not over. */
  ghost predicate Next(s: State, keys: seq<(int, int)>, i: int) {
    && Waits(s, keys, i) && !Over(s, keys[i])
    && forall j | 0 <= j < i :: Waits(s, keys, j) ==> Over(s, keys[j])
  }

  predicate RateUnknown(row: Row, pay: Pay) { row.isTeacher && !pay.sessionBased && pay.rate.None? }

  lemma {:induction false} UncheckedSplits(s: State, a: seq<(int, int)>, b: seq<(int, int)>)
    ensures UncheckedOf(s, a + b) == UncheckedOf(s, a) + UncheckedOf(s, b)
  {
    if b == [] {
      assert a + b == a;
    } else {
      var init := b[..|b| - 1];
      UncheckedSplits(s, a, init);
      assert (a + b)[..|a + b| - 1] == a + init;
    }
  }

  /** The waiting rows, split at the i-th key. */
  lemma UncheckedAround(s: State, keys: seq<(int, int)>, i: int)
    requires Waits(s, keys, i)
    ensures var unchecked, before := UncheckedOf(s, keys), UncheckedOf(s, keys[..i]);
            before + [keys[i]] <= unchecked
  {
    assert keys == keys[..i] + ([keys[i]] + keys[i + 1..]);
    UncheckedSplits(s, keys[..i], [keys[i]] + keys[i + 1..]);
    UncheckedSplits(s, [keys[i]], keys[i + 1..]);
    assert [keys[i]][..0] == [];
    assert UncheckedOf(s, [keys[i]]) == [keys[i]];
  }

  lemma EarlierOnesAreOver(s: State, keys: seq<(int, int)>, i: int, key: (int, int))
    requires Next(s, keys, i) && key in UncheckedOf(s, keys[..i])
    ensures key.1 in s.sessions && Over(s, key)
  {
    var j :| 0 <= j < i && keys[j] == key;
    assert Waits(s, keys, j);
  }

  lemma NextIsChosen(s: State, keys: seq<(int, int)>, i: int)
    requires Next(s, keys, i)
    ensures var unchecked := UncheckedOf(s, keys);
            var chosen := SelectNext(s, unchecked, s.clock);
            chosen.Some? && unchecked[chosen.value] == keys[i]
  {
    var unchecked, before := UncheckedOf(s, keys), UncheckedOf(s, keys[..i]);
    UncheckedAround(s, keys, i);
    assert unchecked[|before|] == keys[i];
    assert forall h | 0 <= h < |unchecked| :: unchecked[h] in unchecked;
    forall h | 0 <= h < |before|
      ensures Ended(s, unchecked[h], s.clock)
    {
      assert before[h] in before && unchecked[h] == before[h];
      EarlierOnesAreOver(s, keys, i, before[h]);
    }
    SelectedIsFirstNotEnded(s, unchecked, s.clock);
  }

  lemma NoNextNoOpenSession(s: State, keys: seq<(int, int)>)
    requires forall i :: !Next(s, keys, i)
    ensures forall key :: key in UncheckedOf(s, keys) ==> Over(s, key)
  {
    forall key | key in UncheckedOf(s, keys)
      ensures Over(s, key)
    {
      var i :| 0 <= i < |keys| && keys[i] == key;
      EachWaitingIsOver(s, keys, i);
    }
  }

  lemma {:induction false} EachWaitingIsOver(s: State, keys: seq<(int, int)>, i: int)
    requires forall j :: !Next(s, keys, j)
    requires Waits(s, keys, i)
    ensures Over(s, keys[i])
    decreases i
  {
    assert !Next(s, keys, i);
    if !Over(s, keys[i]) {
      var j :| 0 <= j < i && Waits(s, keys, j) && !Over(s, keys[j]);
      EachWaitingIsOver(s, keys, j);
    }
  }

  /** When each answer is given. */
  lemma CheckInAnswersIff(s: State, keys: seq<(int, int)>, image: string, extra: bool, pay: Pay)
    ensures var reply := CheckInOp(s, keys, image, extra, pay).1;
            && (reply == MissingImage <==> image == "")
            && (reply == NoSession <==> image != "" && forall i :: !Waits(s, keys, i))
            && (reply == AfterEnd <==> image != "" && (exists i :: Waits(s, keys, i)) && forall i :: !Next(s, keys, i))
            && (reply == TooEarly <==> image != "" && exists i :: Next(s, keys, i) && !InWindow(s, keys[i]))
            && (reply == RateMissing <==>
                  image != ""
                  && exists i :: Next(s, keys, i) && InWindow(s, keys[i]) && RateUnknown(s.rows[keys[i]], pay))
            && (reply == Ok <==>
                  image != ""
                  && exists i :: Next(s, keys, i) && InWindow(s, keys[i]) && !RateUnknown(s.rows[keys[i]], pay))
  {
    var unchecked := UncheckedOf(s, keys);
    if i :| Next(s, keys, i) {
      NextIsChosen(s, keys, i);
      forall j | Next(s, keys, j)
        ensures j == i
      {
      }
    } else {
      NoNextNoOpenSession(s, keys);
      if i :| Waits(s, keys, i) {
        assert keys[i] in unchecked;
        assert unchecked[SelectNext(s, unchecked, s.clock).value] in unchecked;
      } else {
        assert forall key :: key in unchecked ==> key in keys;
        assert unchecked == [] by {
          if unchecked != [] {
            var key := unchecked[0];
            assert key in unchecked;
            var i :| 0 <= i < |keys| && keys[i] == key;
            assert Waits(s, keys, i);
          }
        }
      }
    }
  }

  /** The payroll columns of a live check-in. A staff member other than a teacher has none; with
      payroll by session only the bounds are frozen; bounds already there stay. */
  predicate FrozenLive(row: Row, after: Frozen, session: Session, offset: int, pay: Pay) {
    var was := row.frozen;
    if !row.isTeacher then after == was
    else
      && (if was.start.Some? && was.end.Some? then after.start == was.start && after.end == was.end
          else after.start == Some(StartOf(session, offset)) && after.end == Some(EndOf(session, offset)))
      && (pay.sessionBased ==> after == was.(start := after.start, end := after.end))
      && (!pay.sessionBased ==>
            && after.rate == pay.rate && after.students == Some(pay.students)
            && after.bonus == (if pay.bonus.None? || pay.bonus.value == 0 then was.bonus else pay.bonus)
            && after.perHour == (if pay.perHour.None? then was.perHour else pay.perHour))
  }

  /** A check-in that succeeds records the present instant, the picture and whether it is an extra
      class in the next row; every other answer changes nothing. */
  lemma CheckInWrites(s: State, keys: seq<(int, int)>, image: string, extra: bool, pay: Pay, i: int)
    ensures var (s', reply) := CheckInOp(s, keys, image, extra, pay);
            && (reply != Ok ==> s' == s)
            && (reply == Ok && Next(s, keys, i) ==>
                  && OnlyRow(s, s', keys[i])
                  && var row, row' := s.rows[keys[i]], s'.rows[keys[i]];
                     && row' == row.(checkin := Some(s.clock), image := Some(image), extra := extra,
                                     frozen := row'.frozen)
                     && FrozenLive(row, row'.frozen, s.sessions[keys[i].1], s.offset, pay))
  {
    if Next(s, keys, i) {
      NextIsChosen(s, keys, i);
    }
  }

  // ---------------------------------------------------------------------------------------
  // Check-out

  /** The i-th key is the first of a live row that is checked in and not checked out. */
  ghost predicate FirstRunning(s: State, keys: seq<(int, int)>, i: int) {
    && Running(s, keys, i) && forall j | 0 <= j < i :: !Running(s, keys, j)
  }

  ghost predicate Running(s: State, keys: seq<(int, int)>, i: int) {
    && 0 <= i < |keys| && keys[i] in s.rows && keys[i].1 in s.sessions
    && !s.rows[keys[i]].deleted && s.rows[keys[i]].checkin.Some? && s.rows[keys[i]].checkout.None?
  }

  lemma {:induction false} FirstRunningIsFound(s: State, keys: seq<(int, int)>, i: int)
    requires FirstRunning(s, keys, i)
    ensures FirstOpen(s, keys) == Some(keys[i])
    decreases |keys|
  {
    if i > 0 {
      assert !Running(s, keys, 0);
      assert forall j | 0 <= j < |keys| - 1 :: keys[1..][j] == keys[j + 1];
      assert forall j | 0 <= j < i - 1 :: Running(s, keys[1..], j) ==> Running(s, keys, j + 1);
      FirstRunningIsFound(s, keys[1..], i - 1);
    }
  }

  /** The check-out is the present instant, or the session's end if that is over, but never before
      the check-in; notes that were sent replace the old ones, and blank ones clear them. */
  lemma CheckOutWrites(s: State, keys: seq<(int, int)>, activities: Option<string>, i: int)
    ensures var (s', reply) := CheckOutOp(s, keys, activities);
            && (reply == Ok || reply == NothingOpen)
            && (reply == NothingOpen <==> forall j :: !Running(s, keys, j))
            && (reply == NothingOpen ==> s' == s)
            && (FirstRunning(s, keys, i) ==>
                  && OnlyRow(s, s', keys[i])
                  && var row, row' := s.rows[keys[i]], s'.rows[keys[i]];
                     var end := EndOf(s.sessions[keys[i].1], s.offset);
                     var ended := if s.clock <= end then s.clock else end;
                     && row' == row.(checkout := row'.checkout, activities := row'.activities)
                     && row'.checkout == Some(if ended < row.checkin.value then row.checkin.value else ended)
                     && (activities.None? ==> row'.activities == row.activities)
                     && (activities == Some("") ==> row'.activities == None)
                     && (activities.Some? && activities != Some("") ==> row'.activities == activities))
  {
    if FirstRunning(s, keys, i) {
      FirstRunningIsFound(s, keys, i);
    }
    var found := FirstOpen(s, keys);
    forall j | Running(s, keys, j)
      ensures keys[j] in keys
    {
    }
    if found.Some? {
      var j :| 0 <= j < |keys| && keys[j] == found.value;
      assert Running(s, keys, j);
    }
  }

  // ---------------------------------------------------------------------------------------
  // Cancelling

  /** Cancelling takes the check-in, its picture, the extra-class flag and all payroll columns away
      and keeps the old values on record; every refusal changes nothing. */
  lemma CancelWrites(s: State, key: (int, int), permitted: bool, reason: CancelReason, note: string)
    ensures var (s', reply) := CancelOp(s, key, permitted, reason, note);
            var live := key in s.rows && !s.rows[key].deleted;
            var asked := live && permitted && reason != UnknownReason && |note| <= 500
                         && (reason == OtherReason ==> note != "");
            && (reply == NotFound <==> !live)
            && (reply == Denied <==> live && !permitted)
            && (reply == BadReason <==> live && permitted && !asked)
            && (reply == NothingOpen <==> asked && s.rows[key].checkin.None?)
            && (reply == Completed <==> asked && s.rows[key].checkin.Some? && s.rows[key].checkout.Some?)
            && (reply == Ok <==> asked && s.rows[key].checkin.Some? && s.rows[key].checkout.None?)
            && (reply != Ok ==> s' == s)
            && (reply == Ok ==>
                  var row := s.rows[key];
                  && key in s'.rows
                  && s' == s.(rows := s.rows[key := s'.rows[key]], history := s'.history)
                  && s'.rows[key] == Row(row.isTeacher, None, None, None, false, row.activities,
                                         Frozen(None, None, None, None, None, None), false)
                  && s'.history == s.history +
                       [Record(key, Cancelled, [CheckinChange(row.checkin, None), ImageChange(row.image, None)])])
  {
  }

  // ---------------------------------------------------------------------------------------
  // Self-correction

  /** What a correction makes of one of the two times. */
  function Sent(was: Option<int>, sent: Option<int>, unset: bool): Option<int> {
    if unset then None else if sent.None? then was else sent
  }

  /** A check-out that is kept between the check-in and the session's end. */
  function Kept(checkin: Option<int>, checkout: Option<int>, end: int): Option<int> {
    if checkout.None? then None
    else if checkin.Some? && (checkout.value < checkin.value || end < checkin.value) then checkin
    else if checkout.value > end then Some(end) else checkout
  }

  /** A time or the text becomes another one, or a picture was sent. */
  predicate Differs(row: Row, checkin: Option<int>, checkout: Option<int>, c: Correction) {
    || checkin != row.checkin || checkout != row.checkout || c.image.Some?
    || (c.activities.Some? && (if c.activities.value == "" then None else c.activities) != row.activities)
  }

  /** The answers of a correction that passes the checks on the row and the person. */
  predicate TimesAnswer(s: State, row: Row, session: Session, c: Correction, pay: Pay, reply: Reply) {
    var start, end := StartOf(session, s.offset), EndOf(session, s.offset);
    var checkin := Sent(row.checkin, c.checkin, c.unsetCheckin);
    var checkout := Kept(checkin, Sent(row.checkout, c.checkout, c.unsetCheckout), end);
    var minutes := if s.grace == 0 then 5 else if s.grace < 0 then 0 else s.grace;
    if checkin.None? && checkout.None? then reply == NoTimes
    else if s.clock <= end then reply == NotEnded
    else if checkin.Some? && checkin.value < start - minutes * 60 then reply == BeforeWindow
    else if checkin.Some? && checkout.Some? && end < checkin.value then reply == AfterSession
    else if c.activities.Some? && |c.activities.value| > 2000 then reply == BadActivities
    else if !Differs(row, checkin, checkout, c) then reply == NoChanges
    else if checkin != row.checkin && c.image.None? then reply == MissingImage
    else if row.checkin.None? && checkin.Some? && RateUnknown(row, pay) then reply == RateMissing
    else reply == Ok
  }

  lemma NewTimesAre(row: Row, c: Correction, end: int)
    ensures NewCheckin(row, c) == Sent(row.checkin, c.checkin, c.unsetCheckin)
    ensures NewCheckout(row, c, end) == Kept(NewCheckin(row, c), Sent(row.checkout, c.checkout, c.unsetCheckout), end)
  {
  }

  lemma NoChangesIff(row: Row, checkin: Option<int>, checkout: Option<int>, c: Correction)
    ensures TimeChanges(row, checkin, checkout) + TextChanges(row, c) == [] <==> !Differs(row, checkin, checkout, c)
  {
    if TimeChanges(row, checkin, checkout) != [] {
      assert TimeChanges(row, checkin, checkout)[0] in TimeChanges(row, checkin, checkout) + TextChanges(row, c);
    }
    if TextChanges(row, c) != [] {
      assert TextChanges(row, c)[0] in TimeChanges(row, checkin, checkout) + TextChanges(row, c);
    }
  }

  ghost predicate Answer(s: State, key: (int, int), permitted: bool, c: Correction, pay: Pay, reply: Reply) {
    if key !in s.rows || key.1 !in s.sessions || s.rows[key].deleted then reply == NotFound
    else if |c.reason| < 10 || |c.reason| > 500 then reply == BadReason
    else if !permitted then reply == Denied
    else TimesAnswer(s, s.rows[key], s.sessions[key.1], c, pay, reply)
  }

  lemma ReplyIsTheAnswer(s: State, key: (int, int), permitted: bool, c: Correction, pay: Pay)
    ensures Answer(s, key, permitted, c, pay, CorrectReply(s, key, permitted, c, pay))
  {
    if key in s.rows && key.1 in s.sessions {
      var row, end := s.rows[key], EndOf(s.sessions[key.1], s.offset);
      NewTimesAre(row, c, end);
      NoChangesIff(row, NewCheckin(row, c), NewCheckout(row, c, end), c);
    }
  }

  /** When each answer is given, and that only a correction that is made changes anything. */
  lemma CorrectionAnswers(s: State, key: (int, int), permitted: bool, c: Correction, pay: Pay)
    ensures var (s', reply) := CorrectOp(s, key, permitted, c, pay);
            Answer(s, key, permitted, c, pay, reply) && (s' == s <==> reply != Ok)
  {
    ReplyIsTheAnswer(s, key, permitted, c, pay);
    if CorrectReply(s, key, permitted, c, pay) == Ok {
      assert |CorrectOp(s, key, permitted, c, pay).0.history| == |s.history| + 1;
    }
  }

  /** The payroll columns of a correction: a teacher's first check-in is backfilled. */
  predicate FrozenLater(row: Row, checkin: Option<int>, after: Frozen, session: Session, offset: int, pay: Pay) {
    var was := row.frozen;
    if !row.isTeacher || row.checkin.Some? || checkin.None? then after == was
    else
      && (if was.start.Some? && was.end.Some? then after.start == was.start && after.end == was.end
          else after.start == Some(StartOf(session, offset)) && after.end == Some(EndOf(session, offset)))
      && (pay.sessionBased ==> after == was.(start := after.start, end := after.end))
      && (!pay.sessionBased ==>
            && after.rate == pay.rate && after.students == Some(pay.students) && after.bonus == pay.bonus
            && after.perHour == (if pay.perHour.None? then was.perHour else pay.perHour))
  }

  /** The record of a correction lists each column that changed once, with both values, and any new
      picture; it is a backfill if a time is there that was missing. */
  ghost predicate Recorded(record: Record, key: (int, int), row: Row, after: Row, image: Option<string>) {
    && record.key == key
    && record.kind == (if (row.checkin.None? && after.checkin.Some?) || (row.checkout.None? && after.checkout.Some?)
                       then Backfilled else Corrected)
    && (forall change :: change in record.changes <==>
          || (change == CheckinChange(row.checkin, after.checkin) && row.checkin != after.checkin)
          || (change == CheckoutChange(row.checkout, after.checkout) && row.checkout != after.checkout)
          || (change == ActivitiesChange(row.activities, after.activities) && row.activities != after.activities)
          || (change == ImageChange(row.image, image) && image.Some?))
    && (forall i, j | 0 <= i < j < |record.changes| :: record.changes[i] != record.changes[j])
  }

  lemma CorrectionWrites(s: State, key: (int, int), permitted: bool, c: Correction, pay: Pay)
    requires CorrectOp(s, key, permitted, c, pay).1 == Ok
    ensures var s' := CorrectOp(s, key, permitted, c, pay).0;
            && key in s.rows && key.1 in s.sessions && key in s'.rows
            && var row, row', session := s.rows[key], s'.rows[key], s.sessions[key.1];
            && s' == s.(rows := s.rows[key := row'], history := s'.history)
            && row'.checkin == Sent(row.checkin, c.checkin, c.unsetCheckin)
            && row'.checkout == Kept(row'.checkin, Sent(row.checkout, c.checkout, c.unsetCheckout),
                                     EndOf(session, s.offset))
            && row'.image == (if c.image.None? then row.image else c.image)
            && row'.activities == (if c.activities.None? then row.activities
                                   else if c.activities == Some("") then None else c.activities)
            && row' == row.(checkin := row'.checkin, checkout := row'.checkout, image := row'.image,
                            activities := row'.activities, frozen := row'.frozen)
            && FrozenLater(row, row'.checkin, row'.frozen, session, s.offset, pay)
            && |s'.history| == |s.history| + 1 && s'.history[..|s.history|] == s.history
            && Recorded(s'.history[|s.history|], key, row, row', c.image)
  {
    var row, session := s.rows[key], s.sessions[key.1];
    var after := CorrectedRow(row, session, s.offset, c, pay);
    var changes := TimeChanges(row, after.checkin, after.checkout) + TextChanges(row, c);
    NewTimesAre(row, c, EndOf(session, s.offset));
    ChangesAre(row, after, c);
    KindIs(row, after, c);
    assert CorrectOp(s, key, permitted, c, pay).0.history == s.history + [Record(key, KindOf(changes), changes)];
  }

  lemma ChangesAre(row: Row, after: Row, c: Correction)
    requires after.activities == NewActivities(row, c)
    ensures var changes := TimeChanges(row, after.checkin, after.checkout) + TextChanges(row, c);
            && (forall change :: change in changes <==>
                  || (change == CheckinChange(row.checkin, after.checkin) && row.checkin != after.checkin)
                  || (change == CheckoutChange(row.checkout, after.checkout) && row.checkout != after.checkout)
                  || (change == ActivitiesChange(row.activities, after.activities)
                      && row.activities != after.activities)
                  || (change == ImageChange(row.image, c.image) && c.image.Some?))
            && (forall i, j | 0 <= i < j < |changes| :: changes[i] != changes[j])
  {
  }

  lemma KindIs(row: Row, after: Row, c: Correction)
    requires after.activities == NewActivities(row, c)
    ensures var changes := TimeChanges(row, after.checkin, after.checkout) + TextChanges(row, c);
            KindOf(changes) ==
            if (row.checkin.None? && after.checkin.Some?) || (row.checkout.None? && after.checkout.Some?)
            then Backfilled else Corrected
  {
    var changes := TimeChanges(row, after.checkin, after.checkout) + TextChanges(row, c);
    ChangesAre(row, after, c);
    assert forall k | 0 <= k < |changes| :: changes[k] in changes;
    if row.checkin.None? && after.checkin.Some? {
      assert CheckinChange(row.checkin, after.checkin) in changes;
    }
    if row.checkout.None? && after.checkout.Some? {
      assert CheckoutChange(row.checkout, after.checkout) in changes;
    }
  }

  // ---------------------------------------------------------------------------------------
  // Rows that come and go

  /** Deleting marks the live rows without a check-in, restoring takes that back, and adding makes
      an empty live row where there was none; nothing else changes. */
  lemma RowsComeAndGo(s: State, op: Op, key: (int, int))
    requires op.DoDelete? || op.DoRestore? || op.DoAdd?
    ensures var s' := Apply(s, op);
            && s' == s.(rows := s'.rows)
            && (key in s'.rows <==> key in s.rows || (op.DoAdd? && op.key == key && key.1 in s.sessions))
            && (key in s.rows ==>
                  var marked := if op.DoDelete? && key in op.targets && s.rows[key].checkin.None? then true
                                else if op.DoRestore? && key in op.keys then false else s.rows[key].deleted;
                  s'.rows[key] == s.rows[key].(deleted := marked))
            && (key in s'.rows && key !in s.rows ==>
                  s'.rows[key] == Row(op.isTeacher, None, None, None, false, None,
                                      Frozen(None, None, None, None, None, None), false))
  {
  }
}
