/** Attendance rows as the check-in requests update them in place. */
module CheckInDesk {
  import opened Wrappers
  import opened CheckIn

  /** The tracking loop over unchecked sessions: remembers the last one that has ended. */
  method SelectNextCheckin(s: State, keys: seq<(int, int)>, now: int) returns (chosen: Option<nat>)
    requires forall key :: key in keys ==> key.1 in s.sessions
    ensures chosen == SelectNext(s, keys, now)
  {
    var lastEnded: Option<nat> := None;
    for i := 0 to |keys|
      invariant lastEnded == if i == 0 then None else Some((i - 1) as nat)
      invariant SelectNext(s, keys, now) ==
                if i == |keys| then lastEnded else Some(SelectNext(s, keys[i..], now).value + i)
    {
      assert keys[i] in keys;
      var window := Window(s.sessions[keys[i].1], s.offset, now, s.grace);
      if window == AfterEnd {
        lastEnded := Some(i);
        assert keys[i..][1..] == keys[i + 1..];
      } else {
        return Some(i);
      }
    }
    return lastEnded;
  }

  method ResolveCheckoutTime(checkin: Option<int>, proposed: int, end: int) returns (resolved: int)
    ensures resolved == ResolveCheckout(checkin, proposed, end)
  {
    var raw := proposed;
    if checkin.Some? {
      raw := Max(raw, checkin.value);
    }
    resolved := Min(raw, end);
    if checkin.Some? && resolved < checkin.value {
      resolved := checkin.value;
    }
  }

  method FreezeTeacherSnapshots(row: Row, session: Session, offset: int, pay: Pay)
    returns (frozen: Frozen, rateMissing: bool)
    ensures rateMissing == (row.isTeacher && !pay.sessionBased && pay.rate.None?)
    ensures !rateMissing ==>
              var bounded := if row.isTeacher then FreezeBounds(row.frozen, session, offset) else row.frozen;
              frozen == if row.isTeacher && !pay.sessionBased then FreezeBackfill(bounded, pay) else bounded
  {
    frozen, rateMissing := row.frozen, false;
    if !row.isTeacher {
      return;
    }
    if frozen.start.None? || frozen.end.None? {
      frozen := frozen.(start := Some(StartOf(session, offset)), end := Some(EndOf(session, offset)));
    }
    if pay.sessionBased {
      return;
    }
    if pay.rate.None? {
      rateMissing := true;
      return;
    }
    frozen := frozen.(rate := pay.rate, bonus := pay.bonus, students := Some(pay.students));
    if pay.perHour.Some? {
      frozen := frozen.(perHour := pay.perHour);
    }
  }

  /** The change list of a correction, field by field. */
  method ListChanges(row: Row, checkin: Option<int>, checkout: Option<int>, c: Correction)
    returns (changes: seq<Change>)
    ensures changes == TimeChanges(row, checkin, checkout) + TextChanges(row, c)
  {
    changes := [];
    if row.checkin != checkin {
      changes := changes + [CheckinChange(row.checkin, checkin)];
    }
    if row.checkout != checkout {
      changes := changes + [CheckoutChange(row.checkout, checkout)];
    }
    assert changes == TimeChanges(row, checkin, checkout);
    ghost var times := changes;
    if c.activities.Some? {
      var activities := Cleared(c.activities.value);
      if row.activities != activities {
        changes := changes + [ActivitiesChange(row.activities, activities)];
      }
    }
    if c.image.Some? {
      changes := changes + [ImageChange(row.image, c.image)];
    }
    assert changes == times + TextChanges(row, c);
  }

  /** Every check of a correction but the one on the pay rate, and what it would write. */
  method JudgeCorrection(s: State, key: (int, int), permitted: bool, c: Correction, pay: Pay)
    returns (reply: Reply, checkin: Option<int>, checkout: Option<int>, changes: seq<Change>)
    ensures reply ==
            if CorrectReply(s, key, permitted, c, pay) == RateMissing then Ok
            else CorrectReply(s, key, permitted, c, pay)
    ensures reply == Ok ==>
              && key in s.rows && key.1 in s.sessions
              && checkin == NewCheckin(s.rows[key], c)
              && checkout == NewCheckout(s.rows[key], c, EndOf(s.sessions[key.1], s.offset))
              && changes == TimeChanges(s.rows[key], checkin, checkout) + TextChanges(s.rows[key], c)
  {
    checkin, checkout, changes := None, None, [];
    if key !in s.rows || key.1 !in s.sessions || s.rows[key].deleted {
      return NotFound, checkin, checkout, changes;
    }
    if |c.reason| < MIN_REASON || |c.reason| > MAX_REASON {
      return BadReason, checkin, checkout, changes;
    }
    if !permitted {
      return Denied, checkin, checkout, changes;
    }
    var row, session := s.rows[key], s.sessions[key.1];
    checkin := if c.unsetCheckin then None else if c.checkin.Some? then c.checkin else row.checkin;
    checkout := if c.unsetCheckout then None else if c.checkout.Some? then c.checkout else row.checkout;
    if checkin.None? && checkout.None? {
      return NoTimes, checkin, checkout, changes;
    }
    if checkout.Some? {
      var resolved := ResolveCheckoutTime(checkin, checkout.value, EndOf(session, s.offset));
      checkout := Some(resolved);
    }
    reply := CheckTimes(session, s.offset, s.clock, CorrectionGrace(s.grace), checkin, checkout);
    if reply != Ok {
      return;
    }
    if c.activities.Some? && |c.activities.value| > MAX_ACTIVITIES {
      return BadActivities, checkin, checkout, changes;
    }
    changes := ListChanges(row, checkin, checkout, c);
    if changes == [] {
      return NoChanges, checkin, checkout, changes;
    }
    if row.checkin != checkin && c.image.None? {
      return MissingImage, checkin, checkout, changes;
    }
  }

  method WriteCorrection(row: Row, session: Session, offset: int, checkin: Option<int>, checkout: Option<int>,
                         c: Correction, pay: Pay)
    returns (after: Row, rateMissing: bool)
    requires checkin == NewCheckin(row, c) && checkout == NewCheckout(row, c, EndOf(session, offset))
    ensures rateMissing == (row.checkin.None? && checkin.Some? && row.isTeacher && !pay.sessionBased && pay.rate.None?)
    ensures !rateMissing ==> after == CorrectedRow(row, session, offset, c, pay)
  {
    after, rateMissing := row, false;
    if row.checkin.None? && checkin.Some? {
      var frozen;
      frozen, rateMissing := FreezeTeacherSnapshots(row, session, offset, pay);
      if rateMissing {
        return;
      }
      after := after.(frozen := frozen);
    }
    after := after.(checkin := checkin, checkout := checkout);
    if c.image.Some? {
      after := after.(image := c.image);
    }
    if c.activities.Some? {
      after := after.(activities := Cleared(c.activities.value));
    }
  }

  /** Deleted rows whose user and whose session occur among the pairs, not always together. */
  function DeletedAmong(rows: map<(int, int), Row>, pairs: seq<(int, int)>): set<(int, int)> {
    var users, events := Users(pairs), Events(pairs);
    set key | key in rows && key.0 in users && key.1 in events && rows[key].deleted
  }

  function Users(pairs: seq<(int, int)>): set<int> { set pair | pair in pairs :: pair.0 }

  function Events(pairs: seq<(int, int)>): set<int> { set pair | pair in pairs :: pair.1 }

  lemma RestoredAll(rows0: map<(int, int), Row>, pairs: seq<(int, int)>, found: set<(int, int)>, done: set<(int, int)>)
    requires found == DeletedAmong(rows0, pairs)
    requires forall key :: key in done <==> key in found && key in pairs
    ensures done == set key | key in pairs && Restorable(rows0, key)
  {
  }

  /** How far restoring has come: the rows of `done` are back. */
  ghost predicate RestoredSoFar(rows0: map<(int, int), Row>, done: set<(int, int)>, rows: map<(int, int), Row>) {
    && rows.Keys == rows0.Keys
    && forall key :: key in rows0 ==> rows[key] == if key in done then rows0[key].(deleted := false) else rows0[key]
  }

  class Desk {
    const offset: int
    const grace: int
    const sessions: map<int, Session>
    var clock: int
    var rows: map<(int, int), Row>
    var history: seq<Record>

    function View(): State
      reads this
    {
      State(offset, grace, sessions, clock, rows, history)
    }

    constructor (offset: int, grace: int, sessions: map<int, Session>, clock: int)
      ensures View() == State(offset, grace, sessions, clock, map[], [])
    {
      this.offset, this.grace, this.sessions, this.clock := offset, grace, sessions, clock;
      rows, history := map[], [];
    }

    method Wait(elapsed: nat)
      modifies this`clock
      ensures clock == old(clock) + elapsed
    {
      clock := clock + elapsed;
    }

    method CheckIn(keys: seq<(int, int)>, image: string, extra: bool, pay: Pay) returns (reply: Reply)
      modifies this`rows
      ensures (View(), reply) == CheckInOp(old(View()), keys, image, extra, pay)
    {
      if image == "" {
        return MissingImage;
      }
      var unchecked := UncheckedOf(View(), keys);
      var chosen := SelectNextCheckin(View(), unchecked, clock);
      if chosen.None? {
        return NoSession;
      }
      var key := unchecked[chosen.value];
      assert key in unchecked;
      var row, session := rows[key], sessions[key.1];
      reply := Window(session, offset, clock, grace);
      if reply != Ok {
        return;
      }
      row := row.(extra := extra);
      if row.isTeacher && !pay.sessionBased {
        if pay.rate.None? {
          return RateMissing;
        }
        row := row.(frozen := row.frozen.(rate := pay.rate));
        if pay.bonus.Some? && pay.bonus.value != 0 {
          row := row.(frozen := row.frozen.(bonus := pay.bonus));
        }
        row := row.(frozen := row.frozen.(students := Some(pay.students)));
        if pay.perHour.Some? {
          row := row.(frozen := row.frozen.(perHour := pay.perHour));
        }
      }
      if row.isTeacher && (row.frozen.start.None? || row.frozen.end.None?) {
        row := row.(frozen := row.frozen.(start := Some(StartOf(session, offset)),
                                          end := Some(EndOf(session, offset))));
      }
      row := row.(checkin := Some(clock), image := Some(image));
      rows := rows[key := row];
    }

    method CheckOut(keys: seq<(int, int)>, activities: Option<string>) returns (reply: Reply)
      modifies this`rows
      ensures (View(), reply) == CheckOutOp(old(View()), keys, activities)
    {
      var found := FirstOpen(View(), keys);
      if found.None? {
        return NothingOpen;
      }
      var key := found.value;
      var row := rows[key];
      var checkout := ResolveCheckoutTime(row.checkin, clock, EndOf(sessions[key.1], offset));
      row := row.(checkout := Some(checkout));
      if activities.Some? {
        row := row.(activities := if activities.value == "" then None else activities);
      }
      rows := rows[key := row];
      reply := Ok;
    }

    method CancelOpenCheckin(key: (int, int), permitted: bool, reason: CancelReason, note: string)
      returns (reply: Reply)
      modifies this`rows, this`history
      ensures (View(), reply) == CancelOp(old(View()), key, permitted, reason, note)
    {
      if key !in rows || rows[key].deleted {
        return NotFound;
      }
      if !permitted {
        return Denied;
      }
      if !CancelReasonOk(reason, note) {
        return BadReason;
      }
      var row := rows[key];
      if row.checkin.None? {
        return NothingOpen;
      }
      if row.checkout.Some? {
        return Completed;
      }
      history := history + [Record(key, Cancelled, [CheckinChange(row.checkin, None), ImageChange(row.image, None)])];
      row := row.(checkin := None, image := None, extra := false);
      row := row.(frozen := NOTHING_FROZEN);
      rows := rows[key := row];
      reply := Ok;
    }

    method SelfCorrect(key: (int, int), permitted: bool, c: Correction, pay: Pay) returns (reply: Reply)
      modifies this`rows, this`history
      ensures (View(), reply) == CorrectOp(old(View()), key, permitted, c, pay)
    {
      var checkin, checkout, changes;
      reply, checkin, checkout, changes := JudgeCorrection(View(), key, permitted, c, pay);
      if reply != Ok {
        return;
      }
      var after, rateMissing := WriteCorrection(rows[key], sessions[key.1], offset, checkin, checkout, c, pay);
      if rateMissing {
        return RateMissing;
      }
      rows := rows[key := after];
      history := history + [Record(key, KindOf(changes), changes)];
    }

    method SoftDeleteRows(keys: set<(int, int)>) returns (count: nat)
      modifies this`rows
      ensures View() == SoftDelete(old(View()), keys)
      ensures var kept := old(rows);
              count == |set key | key in keys && key in kept && kept[key].checkin.None? && !kept[key].deleted|
    {
      var targets := set key | key in keys && Deletable(View(), key);
      assert targets == set key | key in keys && key in rows && rows[key].checkin.None? && !rows[key].deleted;
      count := |targets|;
      rows := map key | key in rows :: if key in targets then rows[key].(deleted := true) else rows[key];
    }

    /** Goes through the deleted rows of the users and sessions named, in any combination, and
        restores those that were asked for as a pair. */
    method RestoreForPairs(pairs: seq<(int, int)>) returns (restored: nat)
      modifies this`rows
      ensures View() == RestorePairs(old(View()), pairs)
      ensures restored == |set key | key in pairs && Restorable(old(rows), key)|
    {
      restored := 0;
      ghost var rows0 := rows;
      var found := DeletedAmong(rows, pairs);
      var left := found;
      ghost var done: set<(int, int)> := {};
      while left != {}
        invariant left <= found
        invariant forall key :: key in done <==> key in found && key !in left && key in pairs
        invariant restored == |done|
        invariant RestoredSoFar(rows0, done, rows)
        decreases |left|
      {
        var key := Choose(left);
        left := left - {key};
        if key in pairs {
          rows := rows[key := rows[key].(deleted := false)];
          restored := restored + 1;
          done := done + {key};
        }
      }
      RestoredAll(rows0, pairs, found, done);
      assert rows == RestorePairs(old(View()), pairs).rows;
    }
  }
}
