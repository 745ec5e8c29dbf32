/**
 Session check-in: a row per user and session that live check-in and check-out, cancellation,
 self-correction, soft deletion and restoring change. Instants are seconds; the tenant's time
 zone is a fixed offset; a session's date and times do not change while rows refer to it.
 */
module CheckIn {
  import opened Wrappers

  const DAY := 86400
  const MIN_REASON := 10
  const MAX_REASON := 500
  const MAX_ACTIVITIES := 2000

  /** Seconds since local midnight. */
  type TimeOfDay = t: int | 0 <= t < DAY

  datatype Session = Session(date: int, timeFrom: TimeOfDay, timeTo: TimeOfDay)

  /** The columns frozen for payroll; the last two are the session's bounds. */
  datatype Frozen = Frozen(
    rate: Option<int>, bonus: Option<int>, students: Option<int>, perHour: Option<int>,
    start: Option<int>, end: Option<int>)

  const NOTHING_FROZEN := Frozen(None, None, None, None, None, None)

  datatype Row = Row(
    isTeacher: bool,
    checkin: Option<int>,
    checkout: Option<int>,
    image: Option<string>,
    extra: bool,
    activities: Option<string>,
    frozen: Frozen,
    deleted: bool)

  datatype Kind = Corrected | Backfilled | Cancelled

  datatype Change =
    | CheckinChange(oldTime: Option<int>, newTime: Option<int>)
    | CheckoutChange(oldTime: Option<int>, newTime: Option<int>)
    | ActivitiesChange(oldText: Option<string>, newText: Option<string>)
    | ImageChange(oldText: Option<string>, newText: Option<string>)

  datatype Record = Record(key: (int, int), kind: Kind, changes: seq<Change>)

  /** `sessions` holds the session of every row; `grace` is the tenant's setting in minutes. */
  datatype State = State(
    offset: int, grace: int, sessions: map<int, Session>,
    clock: int, rows: map<(int, int), Row>, history: seq<Record>)

  /** What payroll looks up for a teacher and a course at that moment. */
  datatype Pay = Pay(sessionBased: bool, rate: Option<int>, bonus: Option<int>, students: int, perHour: Option<int>)

  datatype Reply =
    | Ok | NotFound | Denied | MissingImage | NoSession | TooEarly | AfterEnd | RateMissing
    | BadReason | NothingOpen | Completed | NoTimes | NotEnded | BeforeWindow | AfterSession
    | OutBeforeIn | BadActivities | NoChanges

  // ---------------------------------------------------------------------------------------
  // Windows

  function LocalMidnight(session: Session, offset: int): int {
    (session.date + offset) / DAY * DAY - offset
  }

  function StartOf(session: Session, offset: int): int {
    LocalMidnight(session, offset) + session.timeFrom
  }

  /** A session that does not end later in the day ends the next day. */
  function EndOf(session: Session, offset: int): int {
    LocalMidnight(session, offset) + session.timeTo + if session.timeTo <= session.timeFrom then DAY else 0
  }

  lemma StartsBeforeItEnds(session: Session, offset: int)
    ensures StartOf(session, offset) < EndOf(session, offset) <= StartOf(session, offset) + DAY
  {
  }

  function Max(a: int, b: int): int { if a < b then b else a }

  function Min(a: int, b: int): int { if a < b then a else b }

  function OpensAt(session: Session, offset: int, graceMinutes: int): int {
    StartOf(session, offset) - 60 * Max(graceMinutes, 0)
  }

  /** Self-correction reads a grace of zero as five minutes. */
  function CorrectionGrace(grace: int): int { if grace == 0 then 5 else grace }

  function Window(session: Session, offset: int, now: int, grace: int): Reply {
    if now < OpensAt(session, offset, grace) then TooEarly
    else if now > EndOf(session, offset) then AfterEnd
    else Ok
  }

  predicate Ended(s: State, key: (int, int), now: int)
    requires key.1 in s.sessions
  {
    Window(s.sessions[key.1], s.offset, now, s.grace) == AfterEnd
  }

  /** The first candidate that has not ended, else the last one. */
  function SelectNext(s: State, keys: seq<(int, int)>, now: int): (chosen: Option<nat>)
    requires forall key :: key in keys ==> key.1 in s.sessions
    ensures chosen.None? <==> keys == []
    ensures chosen.Some? ==> chosen.value < |keys|
    decreases |keys|
  {
    if keys == [] then None
    else if |keys| == 1 || !Ended(s, keys[0], now) then Some(0)
    else
      assert forall key :: key in keys[1..] ==> key in keys;
      Some(SelectNext(s, keys[1..], now).value + 1)
  }

  function ResolveCheckout(checkin: Option<int>, proposed: int, end: int): int {
    var raw := if checkin.Some? then Max(proposed, checkin.value) else proposed;
    var resolved := Min(raw, end);
    if checkin.Some? && resolved < checkin.value then checkin.value else resolved
  }

  // ---------------------------------------------------------------------------------------
  // Payroll columns

  function FreezeBounds(frozen: Frozen, session: Session, offset: int): Frozen {
    if frozen.start.None? || frozen.end.None?
    then frozen.(start := Some(StartOf(session, offset)), end := Some(EndOf(session, offset)))
    else frozen
  }

  /** The live check-in keeps an old bonus when the teacher has none now. */
  function FreezeLive(frozen: Frozen, pay: Pay): Frozen {
    frozen.(rate := pay.rate,
            bonus := if pay.bonus.Some? && pay.bonus.value != 0 then pay.bonus else frozen.bonus,
            students := Some(pay.students),
            perHour := if pay.perHour.Some? then pay.perHour else frozen.perHour)
  }

  function FreezeBackfill(frozen: Frozen, pay: Pay): Frozen {
    frozen.(rate := pay.rate,
            bonus := pay.bonus,
            students := Some(pay.students),
            perHour := if pay.perHour.Some? then pay.perHour else frozen.perHour)
  }

  // ---------------------------------------------------------------------------------------
  // Operations

  predicate Unchecked(s: State, key: (int, int)) {
    key in s.rows && key.1 in s.sessions && !s.rows[key].deleted && s.rows[key].checkin.None?
  }

  predicate Open(s: State, key: (int, int)) {
    key in s.rows && key.1 in s.sessions && !s.rows[key].deleted
    && s.rows[key].checkin.Some? && s.rows[key].checkout.None?
  }

  function UncheckedOf(s: State, keys: seq<(int, int)>): (unchecked: seq<(int, int)>)
    ensures forall key :: key in unchecked <==> key in keys && Unchecked(s, key)
  {
    if keys == [] then []
    else
      var rest := UncheckedOf(s, keys[..|keys| - 1]);
      if Unchecked(s, keys[|keys| - 1]) then rest + [keys[|keys| - 1]] else rest
  }

  function FirstOpen(s: State, keys: seq<(int, int)>): (found: Option<(int, int)>)
    ensures found.Some? ==> found.value in keys && Open(s, found.value)
    ensures found.None? ==> forall key :: key in keys ==> !Open(s, key)
    decreases |keys|
  {
    if keys == [] then None
    else if Open(s, keys[0]) then Some(keys[0])
    else
      var rest := FirstOpen(s, keys[1..]);
      assert rest.None? ==> forall key :: key in keys ==> key == keys[0] || key in keys[1..];
      rest
  }

  function CheckedIn(row: Row, session: Session, offset: int, now: int, image: string, extra: bool, pay: Pay): Row {
    var paid := if row.isTeacher && !pay.sessionBased then FreezeLive(row.frozen, pay) else row.frozen;
    row.(checkin := Some(now),
         image := Some(image),
         extra := extra,
         frozen := if row.isTeacher then FreezeBounds(paid, session, offset) else paid)
  }

  /** `keys` are the user's rows for today's sessions and the still open ones, in order. */
  function CheckInOp(s: State, keys: seq<(int, int)>, image: string, extra: bool, pay: Pay): (State, Reply) {
    if image == "" then (s, MissingImage)
    else
      var unchecked := UncheckedOf(s, keys);
      var chosen := SelectNext(s, unchecked, s.clock);
      if chosen.None? then (s, NoSession)
      else
        var key := unchecked[chosen.value];
        var session, row := s.sessions[key.1], s.rows[key];
        var window := Window(session, s.offset, s.clock, s.grace);
        if window != Ok then (s, window)
        else if row.isTeacher && !pay.sessionBased && pay.rate.None? then (s, RateMissing)
        else (s.(rows := s.rows[key := CheckedIn(row, session, s.offset, s.clock, image, extra, pay)]), Ok)
  }

  /** Text that was sent, stripped; a blank one clears the column. */
  function Cleared(text: string): Option<string> { if text == "" then None else Some(text) }

  function CheckOutOp(s: State, keys: seq<(int, int)>, activities: Option<string>): (State, Reply) {
    var found := FirstOpen(s, keys);
    if found.None? then (s, NothingOpen)
    else
      var key := found.value;
      var row, end := s.rows[key], EndOf(s.sessions[key.1], s.offset);
      var checkout := ResolveCheckout(row.checkin, s.clock, end);
      var text := if activities.Some? then Cleared(activities.value) else row.activities;
      (s.(rows := s.rows[key := row.(checkout := Some(checkout), activities := text)]), Ok)
  }

  datatype CancelReason = NoShow | Mistake | OtherReason | UnknownReason

  predicate CancelReasonOk(reason: CancelReason, note: string) {
    reason != UnknownReason && (reason == OtherReason ==> note != "") && |note| <= MAX_REASON
  }

  /** `permitted` is the outcome of the checks on the actor and the tenant's settings. */
  function CancelOp(s: State, key: (int, int), permitted: bool, reason: CancelReason, note: string): (State, Reply) {
    if key !in s.rows || s.rows[key].deleted then (s, NotFound)
    else if !permitted then (s, Denied)
    else if !CancelReasonOk(reason, note) then (s, BadReason)
    else
      var row := s.rows[key];
      if row.checkin.None? then (s, NothingOpen)
      else if row.checkout.Some? then (s, Completed)
      else
        var changes := [CheckinChange(row.checkin, None), ImageChange(row.image, None)];
        (s.(rows := s.rows[key := row.(checkin := None, image := None, extra := false, frozen := NOTHING_FROZEN)],
            history := s.history + [Record(key, Cancelled, changes)]), Ok)
  }

  /** What a correction sends; `activities` is Some when the field was sent, stripped. */
  datatype Correction = Correction(
    checkin: Option<int>, checkout: Option<int>, image: Option<string>, activities: Option<string>,
    reason: string, unsetCheckin: bool, unsetCheckout: bool)

  function NewCheckin(row: Row, c: Correction): Option<int> {
    if c.unsetCheckin then None else if c.checkin.Some? then c.checkin else row.checkin
  }

  function NewCheckout(row: Row, c: Correction, end: int): Option<int> {
    var proposed := if c.unsetCheckout then None else if c.checkout.Some? then c.checkout else row.checkout;
    if proposed.Some? then Some(ResolveCheckout(NewCheckin(row, c), proposed.value, end)) else None
  }

  function NewActivities(row: Row, c: Correction): Option<string> {
    if c.activities.Some? then Cleared(c.activities.value) else row.activities
  }

  function CheckTimes(session: Session, offset: int, now: int, grace: int, checkin: Option<int>,
                      checkout: Option<int>): Reply {
    if now <= EndOf(session, offset) then NotEnded
    else if checkin.Some? && checkin.value < OpensAt(session, offset, grace) then BeforeWindow
    else if checkin.Some? && checkout.Some? && checkout.value < checkin.value then OutBeforeIn
    else if checkout.Some? && checkout.value > EndOf(session, offset) then AfterSession
    else Ok
  }

  function TimeChanges(row: Row, checkin: Option<int>, checkout: Option<int>): seq<Change> {
    (if row.checkin == checkin then [] else [CheckinChange(row.checkin, checkin)])
    + (if row.checkout == checkout then [] else [CheckoutChange(row.checkout, checkout)])
  }

  function TextChanges(row: Row, c: Correction): seq<Change> {
    (if NewActivities(row, c) == row.activities then [] else [ActivitiesChange(row.activities, NewActivities(row, c))])
    + (if c.image.None? then [] else [ImageChange(row.image, c.image)])
  }

  predicate FillsTime(change: Change) {
    (change.CheckinChange? || change.CheckoutChange?) && change.oldTime.None?
  }

  function KindOf(changes: seq<Change>): Kind {
    if exists k :: 0 <= k < |changes| && FillsTime(changes[k]) then Backfilled else Corrected
  }

  function CorrectReply(s: State, key: (int, int), permitted: bool, c: Correction, pay: Pay): Reply {
    if key !in s.rows || key.1 !in s.sessions || s.rows[key].deleted then NotFound
    else if !(MIN_REASON <= |c.reason| <= MAX_REASON) then BadReason
    else if !permitted then Denied
    else
      var row, session := s.rows[key], s.sessions[key.1];
      var checkin, checkout := NewCheckin(row, c), NewCheckout(row, c, EndOf(session, s.offset));
      if checkin.None? && checkout.None? then NoTimes
      else
        var times := CheckTimes(session, s.offset, s.clock, CorrectionGrace(s.grace), checkin, checkout);
        if times != Ok then times
        else if c.activities.Some? && |c.activities.value| > MAX_ACTIVITIES then BadActivities
        else if TimeChanges(row, checkin, checkout) + TextChanges(row, c) == [] then NoChanges
        else if checkin != row.checkin && c.image.None? then MissingImage
        else if row.checkin.None? && checkin.Some? && row.isTeacher && !pay.sessionBased && pay.rate.None?
        then RateMissing
        else Ok
  }

  function CorrectedRow(row: Row, session: Session, offset: int, c: Correction, pay: Pay): Row {
    var checkin := NewCheckin(row, c);
    var backfill := row.checkin.None? && checkin.Some? && row.isTeacher;
    var bounded := if backfill then FreezeBounds(row.frozen, session, offset) else row.frozen;
    row.(checkin := checkin,
         checkout := NewCheckout(row, c, EndOf(session, offset)),
         image := if c.image.Some? then c.image else row.image,
         activities := NewActivities(row, c),
         frozen := if backfill && !pay.sessionBased then FreezeBackfill(bounded, pay) else bounded)
  }

  function CorrectOp(s: State, key: (int, int), permitted: bool, c: Correction, pay: Pay): (State, Reply) {
    var reply := CorrectReply(s, key, permitted, c, pay);
    if reply != Ok then (s, reply)
    else
      var row, session := s.rows[key], s.sessions[key.1];
      var after := CorrectedRow(row, session, s.offset, c, pay);
      var changes := TimeChanges(row, after.checkin, after.checkout) + TextChanges(row, c);
      (s.(rows := s.rows[key := after], history := s.history + [Record(key, KindOf(changes), changes)]), Ok)
  }

  /** Rows that were checked in are kept. */
  predicate Deletable(s: State, key: (int, int)) {
    key in s.rows && s.rows[key].checkin.None? && !s.rows[key].deleted
  }

  function SoftDelete(s: State, keys: set<(int, int)>): State {
    s.(rows := map key | key in s.rows ::
         if key in keys && Deletable(s, key) then s.rows[key].(deleted := true) else s.rows[key])
  }

  predicate Restorable(rows: map<(int, int), Row>, key: (int, int)) { key in rows && rows[key].deleted }

  function RestorePairs(s: State, keys: seq<(int, int)>): State {
    s.(rows := map key | key in s.rows ::
         if key in keys && Restorable(s.rows, key) then s.rows[key].(deleted := false) else s.rows[key])
  }

  function NewRow(isTeacher: bool): Row { Row(isTeacher, None, None, None, false, None, NOTHING_FROZEN, false) }

  /** A row is created for a known session unless the pair is taken. */
  function AddRow(s: State, key: (int, int), isTeacher: bool): State {
    if key in s.rows || key.1 !in s.sessions then s else s.(rows := s.rows[key := NewRow(isTeacher)])
  }

  datatype Op =
    | DoCheckIn(keys: seq<(int, int)>, image: string, extra: bool, pay: Pay)
    | DoCheckOut(keys: seq<(int, int)>, activities: Option<string>)
    | DoCancel(key: (int, int), permitted: bool, reason: CancelReason, note: string)
    | DoCorrect(key: (int, int), permitted: bool, correction: Correction, pay: Pay)
    | DoDelete(targets: set<(int, int)>)
    | DoRestore(keys: seq<(int, int)>)
    | DoAdd(key: (int, int), isTeacher: bool)

  function Apply(s: State, op: Op): State {
    match op
    case DoCheckIn(keys, image, extra, pay) => CheckInOp(s, keys, image, extra, pay).0
    case DoCheckOut(keys, activities) => CheckOutOp(s, keys, activities).0
    case DoCancel(key, permitted, reason, note) => CancelOp(s, key, permitted, reason, note).0
    case DoCorrect(key, permitted, correction, pay) => CorrectOp(s, key, permitted, correction, pay).0
    case DoDelete(targets) => SoftDelete(s, targets)
    case DoRestore(keys) => RestorePairs(s, keys)
    case DoAdd(key, isTeacher) => AddRow(s, key, isTeacher)
  }

  /** Each request comes some time after the one before. */
  function Later(s: State, elapsed: nat): State { s.(clock := s.clock + elapsed) }

  function Run(s: State, steps: seq<(nat, Op)>): State
    decreases |steps|
  {
    if steps == [] then s else Run(Apply(Later(s, steps[0].0), steps[0].1), steps[1..])
  }
}
