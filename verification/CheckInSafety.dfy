/** What every run of check-ins, check-outs, cancellations and corrections keeps. */
module CheckInSafety {
  import opened Wrappers
  import opened CheckIn

  // ---------------------------------------------------------------------------------------
  // Resolving a check-out, and choosing a session

  /** The check-out moves to the nearest instant between check-in and session end; after the
      session the check-in itself is used. Without a check-in only the end caps it. */
  lemma ResolvedCheckoutIsNearest(checkin: Option<int>, proposed: int, end: int)
    ensures var r := ResolveCheckout(checkin, proposed, end);
            && (checkin.None? ==> r <= end && (proposed <= end ==> r == proposed) && (proposed > end ==> r == end))
            && (checkin.Some? ==>
                && checkin.value <= r <= Max(checkin.value, end)
                && (checkin.value <= proposed <= end ==> r == proposed)
                && (proposed < checkin.value ==> r == checkin.value)
                && (proposed > end ==> r == Max(checkin.value, end)))
    ensures var r := ResolveCheckout(checkin, proposed, end); ResolveCheckout(checkin, r, end) == r
  {
  }

  ghost predicate AllKnown(s: State, keys: seq<(int, int)>) { forall key :: key in keys ==> key.1 in s.sessions }

  /** Everything before the chosen session has ended, and the chosen one has not, unless all have. */
  lemma {:induction false} SelectedIsFirstNotEnded(s: State, keys: seq<(int, int)>, now: int)
    requires AllKnown(s, keys) && keys != []
    ensures var k := SelectNext(s, keys, now).value;
            && (forall i :: 0 <= i < k ==> Ended(s, keys[i], now))
            && (Ended(s, keys[k], now) <==> forall i :: 0 <= i < |keys| ==> Ended(s, keys[i], now))
            && (Ended(s, keys[k], now) ==> k == |keys| - 1)
    decreases |keys|
  {
    if |keys| > 1 && Ended(s, keys[0], now) {
      assert forall key :: key in keys[1..] ==> key in keys;
      SelectedIsFirstNotEnded(s, keys[1..], now);
      var k := SelectNext(s, keys[1..], now).value;
      assert SelectNext(s, keys, now).value == k + 1;
      assert forall i :: 0 < i < |keys| ==> keys[i] == keys[1..][i - 1];
    }
  }

  ghost predicate Allowed(s: State, key: (int, int), now: int)
    requires key.1 in s.sessions
  {
    Window(s.sessions[key.1], s.offset, now, s.grace) == Ok
  }

  /** Session i is not open yet, all before it have ended, and session j after it is open. */
  ghost predicate Blocks(s: State, keys: seq<(int, int)>, now: int, i: nat, j: nat)
    requires AllKnown(s, keys) && i < j < |keys|
  {
    && Window(s.sessions[keys[i].1], s.offset, now, s.grace) == TooEarly
    && Allowed(s, keys[j], now)
    && forall h :: 0 <= h < i ==> Ended(s, keys[h], now)
  }

  /** For candidates in any order: check-in is refused although some candidate's window is open if
      and only if an open one is listed after one that is still too early. */
  lemma ChoiceMissesAnOpenWindowIff(s: State, keys: seq<(int, int)>, now: int)
    requires AllKnown(s, keys) && keys != []
    ensures && !Allowed(s, keys[SelectNext(s, keys, now).value], now)
            && (exists j :: 0 <= j < |keys| && Allowed(s, keys[j], now))
            <==> exists i, j :: 0 <= i < j < |keys| && Blocks(s, keys, now, i, j)
  {
    SelectedIsFirstNotEnded(s, keys, now);
    var k := SelectNext(s, keys, now).value;
    if j :| 0 <= j < |keys| && Allowed(s, keys[j], now) {
      assert !Ended(s, keys[j], now);
      if !Allowed(s, keys[k], now) {
        assert Blocks(s, keys, now, k, j);
      }
    }
    if i, j :| 0 <= i < j < |keys| && Blocks(s, keys, now, i, j) {
      assert !Ended(s, keys[i], now);
      assert k == i;
    }
  }

  /** So with the sessions in the order they start, check-in is open for the chosen session if and
      only if it is open for any of them. */
  lemma ChoiceFindsAnOpenWindowIff(s: State, keys: seq<(int, int)>, now: int)
    requires AllKnown(s, keys) && keys != []
    requires forall i, j :: 0 <= i < j < |keys| ==>
      StartOf(s.sessions[keys[i].1], s.offset) <= StartOf(s.sessions[keys[j].1], s.offset)
    ensures Allowed(s, keys[SelectNext(s, keys, now).value], now) <==>
            exists i :: 0 <= i < |keys| && Allowed(s, keys[i], now)
  {
    ChoiceMissesAnOpenWindowIff(s, keys, now);
    forall i, j | 0 <= i < j < |keys| ensures !Blocks(s, keys, now, i, j) {
      assert StartOf(s.sessions[keys[i].1], s.offset) <= StartOf(s.sessions[keys[j].1], s.offset);
    }
  }

  /** Live check-in and self-correction open at the same instant unless the grace is zero. */
  lemma GraceAgreesIff(session: Session, offset: int, grace: int)
    ensures OpensAt(session, offset, grace) == OpensAt(session, offset, CorrectionGrace(grace)) <==> grace != 0
  {
  }

  // ---------------------------------------------------------------------------------------
  // The invariant

  ghost predicate TimesInOrder(row: Row, end: int) {
    row.checkin.Some? && row.checkout.Some? ==>
      row.checkin.value <= row.checkout.value <= Max(row.checkin.value, end)
  }

  ghost predicate BoundsFrozen(row: Row, session: Session, offset: int) {
    row.frozen.start == Some(StartOf(session, offset)) && row.frozen.end == Some(EndOf(session, offset))
  }

  ghost predicate RowOk(row: Row, session: Session, offset: int, grace: int, clock: int) {
    var end := EndOf(session, offset);
    && TimesInOrder(row, end)
    && (row.checkin.Some? ==> row.checkin.value >= OpensAt(session, offset, CorrectionGrace(grace)))
    && (row.deleted ==> row.checkin.None?)
    && (row.isTeacher && row.checkin.Some? ==> BoundsFrozen(row, session, offset))
    && (row.checkin.None? && row.checkout.Some? ==> row.checkout.value <= end < clock)
    && (row.frozen.start.Some? && row.frozen.end.Some? ==> BoundsFrozen(row, session, offset))
  }

  ghost predicate Inv(s: State) {
    forall key :: key in s.rows ==>
      key.1 in s.sessions && RowOk(s.rows[key], s.sessions[key.1], s.offset, s.grace, s.clock)
  }

  lemma CheckedInIsOk(s: State, key: (int, int), image: string, extra: bool, pay: Pay)
    requires Inv(s) && Unchecked(s, key) && Allowed(s, key, s.clock)
    ensures var row := CheckedIn(s.rows[key], s.sessions[key.1], s.offset, s.clock, image, extra, pay);
            RowOk(row, s.sessions[key.1], s.offset, s.grace, s.clock) && row.checkout.None?
  {
  }

  lemma CheckInKeepsInv(s: State, keys: seq<(int, int)>, image: string, extra: bool, pay: Pay)
    requires Inv(s)
    ensures Inv(CheckInOp(s, keys, image, extra, pay).0)
  {
    if CheckInOp(s, keys, image, extra, pay).1 == Ok {
      var unchecked := UncheckedOf(s, keys);
      var key := unchecked[SelectNext(s, unchecked, s.clock).value];
      assert key in unchecked;
      CheckedInIsOk(s, key, image, extra, pay);
    }
  }

  lemma CheckOutKeepsInv(s: State, keys: seq<(int, int)>, activities: Option<string>)
    requires Inv(s)
    ensures Inv(CheckOutOp(s, keys, activities).0)
  {
  }

  lemma CorrectedRowIsOk(s: State, key: (int, int), permitted: bool, c: Correction, pay: Pay)
    requires Inv(s) && CorrectReply(s, key, permitted, c, pay) == Ok
    ensures RowOk(CorrectedRow(s.rows[key], s.sessions[key.1], s.offset, c, pay),
                  s.sessions[key.1], s.offset, s.grace, s.clock)
  {
  }

  lemma ApplyKeepsInv(s: State, op: Op)
    requires Inv(s)
    ensures Inv(Apply(s, op))
  {
    match op
    case DoCheckIn(keys, image, extra, pay) => CheckInKeepsInv(s, keys, image, extra, pay);
    case DoCheckOut(keys, activities) => CheckOutKeepsInv(s, keys, activities);
    case DoCorrect(key, permitted, correction, pay) =>
      if CorrectReply(s, key, permitted, correction, pay) == Ok {
        CorrectedRowIsOk(s, key, permitted, correction, pay);
      }
    case _ =>
  }

  lemma LaterKeepsInv(s: State, elapsed: nat)
    requires Inv(s)
    ensures Inv(Later(s, elapsed))
  {
  }

  lemma {:induction false} RunKeepsInv(s: State, steps: seq<(nat, Op)>)
    requires Inv(s)
    ensures Inv(Run(s, steps))
    decreases |steps|
  {
    if steps != [] {
      var later := Later(s, steps[0].0);
      LaterKeepsInv(s, steps[0].0);
      ApplyKeepsInv(later, steps[0].1);
      RunKeepsInv(Apply(later, steps[0].1), steps[1..]);
    }
  }

  lemma ApplyKeepsSettings(s: State, op: Op)
    ensures var t := Apply(s, op); t.sessions == s.sessions && t.offset == s.offset && t.grace == s.grace
  {
  }

  lemma {:induction false} RunKeepsSettings(s: State, steps: seq<(nat, Op)>)
    ensures var t := Run(s, steps); t.sessions == s.sessions && t.offset == s.offset && t.grace == s.grace
    decreases |steps|
  {
    if steps != [] {
      var later := Later(s, steps[0].0);
      ApplyKeepsSettings(later, steps[0].1);
      RunKeepsSettings(Apply(later, steps[0].1), steps[1..]);
    }
  }

  /** A run takes its steps one after the other, each some time after the one before. */
  lemma {:induction false} RunsStepByStep(s: State, steps: seq<(nat, Op)>, elapsed: nat, op: Op)
    ensures Run(s, []) == s
    ensures Run(s, steps + [(elapsed, op)]) ==
            var before := Run(s, steps); Apply(before.(clock := before.clock + elapsed), op)
    decreases |steps|
  {
    var all := steps + [(elapsed, op)];
    if steps == [] {
      assert all[1..] == [];
    } else {
      assert all[1..] == steps[1..] + [(elapsed, op)];
      RunsStepByStep(Apply(Later(s, steps[0].0), steps[0].1), steps[1..], elapsed, op);
    }
  }

  /** In every run that starts without rows: check-in <= check-out <= max(check-in, session end),
      no check-in before the widest window, no check-in on a deleted row, and a teacher who is
      checked in has the session's bounds frozen, start before end. */
  lemma EveryRowIsOk(start: State, steps: seq<(nat, Op)>, key: (int, int))
    requires start.rows == map[]
    ensures var s := Run(start, steps);
            key in s.rows ==>
              && key.1 in start.sessions
              && var row, session := s.rows[key], start.sessions[key.1];
              && TimesInOrder(row, EndOf(session, start.offset))
              && (row.checkin.Some? ==>
                    row.checkin.value >= OpensAt(session, start.offset, CorrectionGrace(start.grace)))
              && (row.deleted ==> row.checkin.None?)
              && (row.isTeacher && row.checkin.Some? ==>
                  && row.frozen.start == Some(StartOf(session, start.offset))
                  && row.frozen.end == Some(EndOf(session, start.offset))
                  && row.frozen.start.value < row.frozen.end.value)
  {
    RunKeepsInv(start, steps);
    RunKeepsSettings(start, steps);
    if key in Run(start, steps).rows {
      StartsBeforeItEnds(start.sessions[key.1], start.offset);
    }
  }

  /** Only cancelling a check-in unfreezes the bounds of a row. */
  lemma OnlyCancellingUnfreezes(s: State, op: Op, key: (int, int))
    requires key in s.rows && s.rows[key].frozen.start.Some? && s.rows[key].frozen.end.Some?
    requires op.DoCancel? ==> op.key != key
    ensures var t := Apply(s, op);
            && key in t.rows
            && t.rows[key].frozen.start == s.rows[key].frozen.start
            && t.rows[key].frozen.end == s.rows[key].frozen.end
  {
  }

  /** A row without frozen columns gets the same ones from a live check-in and from the backfill
      of a correction, unless the teacher's bonus is zero: only the backfill stores a zero. */
  lemma LiveAndBackfillFreezeAlikeIff(session: Session, offset: int, pay: Pay)
    ensures var live := FreezeBounds(FreezeLive(NOTHING_FROZEN, pay), session, offset);
            var backfill := FreezeBackfill(FreezeBounds(NOTHING_FROZEN, session, offset), pay);
            live == backfill <==> pay.bonus != Some(0)
  {
  }

  /** A cancelled row is as it was before any check-in, and can be checked in or deleted again. */
  lemma CancelUndoesCheckIn(s: State, key: (int, int), image: string, extra: bool, pay: Pay,
                            permitted: bool, reason: CancelReason, note: string)
    requires key in s.rows && key.1 in s.sessions && s.rows[key] == NewRow(s.rows[key].isTeacher)
    requires CheckInOp(s, [key], image, extra, pay).1 == Ok && permitted && CancelReasonOk(reason, note)
    ensures CheckInOp(s, [key], image, extra, pay).0.rows != s.rows
    ensures var (t, reply) := CancelOp(CheckInOp(s, [key], image, extra, pay).0, key, permitted, reason, note);
            reply == Ok && t.rows == s.rows
  {
    assert [key][..0] == [];
    assert UncheckedOf(s, [key]) == [key];
    var (t, _) := CheckInOp(s, [key], image, extra, pay);
    assert t.rows[key].checkin.Some?;
  }

  /** Checking out after cancelling and checking in again never sees an old check-out: a row
      without a check-in that has a check-out belongs to a session that is over. */
  lemma CheckInNeverMeetsACheckout(s: State, keys: seq<(int, int)>, image: string, extra: bool, pay: Pay,
                                   key: (int, int))
    requires Inv(s) && key in s.rows
    requires s.rows[key].checkin.None? && s.rows[key].checkout.Some?
    ensures CheckInOp(s, keys, image, extra, pay).0.rows[key] == s.rows[key]
  {
  }
}
