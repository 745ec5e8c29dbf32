/**
 Refresh sessions with token rotation and replay detection, the registry of mobile devices, and
 the single-device policy applied at login. A token is its number in the list of all tokens ever
 minted; the list holds each token's own expiry. Times are seconds.
 */
module RefreshSessions {
  import opened Wrappers

  const DAY := 86400
  const NORMAL_LIFETIME := 7 * DAY
  const REMEMBERED_LIFETIME := 90 * DAY

  const SESSION_ROTATED := "session_rotated"
  const DEVICE_DISPLACED := "device_displaced"

  type DeviceKey = (nat, nat) // user and installation

  datatype Session = Session(
    user: nat,
    schema: string,
    jti: nat,
    remembered: bool,
    expiresAt: int,
    mobile: bool,
    device: Option<DeviceKey>,
    revokedAt: Option<int>,
    revokedReason: Option<string>,
    lastSeenAt: int)

  datatype Device = Device(active: bool, revokedAt: Option<int>, lastSeenAt: int)

  /** `accepted` lists the tokens that refreshes have accepted, in order. */
  datatype State = State(
    clock: int,
    sessions: map<nat, Session>,
    nextSession: nat,
    devices: map<DeviceKey, Device>,
    minted: seq<int>,
    accepted: seq<nat>)

  datatype Client = Web | MobileNative(installation: nat)

  datatype RefreshResult =
    | Refreshed(jti: nat, expiresAt: int)
    | InvalidToken
    | UnknownSession
    | TenantMismatch
    | SessionRevoked(reason: Option<string>)
    | SessionExpired
    | ReuseDetected
    | InactiveUser

  function Lifetime(remembered: bool): int {
    if remembered then REMEMBERED_LIFETIME else NORMAL_LIFETIME
  }

  predicate Live(x: Session, now: int) { x.revokedAt.None? && x.expiresAt > now }

  function Revoke(x: Session, now: int, reason: Option<string>): Session {
    x.(revokedAt := Some(now), revokedReason := if reason.Some? then reason else x.revokedReason)
  }

  /** `queryset.update(revoked_at=now, revoked_reason=reason)` on the sessions in `which`. */
  function RevokeAmong(ss: map<nat, Session>, which: set<nat>, now: int, reason: Option<string>): map<nat, Session> {
    map i <- ss :: if i in which then Revoke(ss[i], now, reason) else ss[i]
  }

  function ActiveMobileSessions(ss: map<nat, Session>, user: nat, now: int): set<nat> {
    set i <- ss | ss[i].user == user && ss[i].mobile && Live(ss[i], now)
  }

  // ---------------------------------------------------------------------------------------
  // Login

  function Register(devices: map<DeviceKey, Device>, key: DeviceKey, now: int): map<DeviceKey, Device> {
    devices[key := if key in devices then devices[key].(active := true, lastSeenAt := now)
                   else Device(true, None, now)]
  }

  /** The single-device policy after session `sid` was created on device `key`. */
  function Enforce(s: State, user: nat, sid: nat, key: DeviceKey): State {
    var same := set i <- ActiveMobileSessions(s.sessions, user, s.clock) |
                      i != sid && s.sessions[i].device == Some(key);
    var rotated := RevokeAmong(s.sessions, same, s.clock, Some(SESSION_ROTATED));
    var others := set i <- ActiveMobileSessions(rotated, user, s.clock) |
                        i != sid && rotated[i].device != Some(key);
    var displaced := set k <- s.devices | exists i <- others :: rotated[i].device == Some(k);
    s.(sessions := RevokeAmong(rotated, others, s.clock, Some(DEVICE_DISPLACED)),
       devices := map k <- s.devices ::
         if k in displaced then s.devices[k].(active := false, revokedAt := Some(s.clock))
         else s.devices[k])
  }

  function Created(s: State, user: nat, schema: string, remembered: bool, device: Option<DeviceKey>): State {
    var expiresAt := s.clock + Lifetime(remembered);
    var x := Session(user, schema, |s.minted|, remembered, expiresAt, device.Some?, device, None, None, s.clock);
    s.(sessions := s.sessions[s.nextSession := x],
       nextSession := s.nextSession + 1,
       devices := if device.Some? then Register(s.devices, device.value, s.clock) else s.devices,
       minted := s.minted + [expiresAt])
  }

  function Login(s: State, user: nat, schema: string, remembered: bool, client: Client, singleDevice: bool): State {
    match client
    case Web => Created(s, user, schema, remembered, None)
    case MobileNative(installation) =>
      var s1 := Created(s, user, schema, remembered, Some((user, installation)));
      if singleDevice then Enforce(s1, user, s.nextSession, (user, installation)) else s1
  }

  // ---------------------------------------------------------------------------------------
  // Refresh

  /** Signature and expiry of the token itself, checked before any session is looked up. */
  predicate TokenValid(s: State, jti: nat) { jti < |s.minted| && s.minted[jti] > s.clock }

  function Touch(devices: map<DeviceKey, Device>, key: Option<DeviceKey>, now: int): map<DeviceKey, Device> {
    if key.Some? && key.value in devices then
      devices[key.value := devices[key.value].(lastSeenAt := now)]
    else devices
  }

  function Rotate(s: State, sid: nat): State
    requires sid in s.sessions
  {
    var x := s.sessions[sid];
    var expiresAt := s.clock + Lifetime(x.remembered);
    s.(sessions := s.sessions[sid := x.(jti := |s.minted|, expiresAt := expiresAt, lastSeenAt := s.clock)],
       devices := Touch(s.devices, x.device, s.clock),
       minted := s.minted + [expiresAt],
       accepted := s.accepted + [x.jti])
  }

  function Refresh(s: State, jti: nat, sid: nat, schema: string, userActive: bool): (State, RefreshResult) {
    if !TokenValid(s, jti) then (s, InvalidToken)
    else if sid !in s.sessions then (s, UnknownSession)
    else
      var x := s.sessions[sid];
      if x.schema != schema then (s, TenantMismatch)
      else if x.revokedAt.Some? then (s, SessionRevoked(x.revokedReason))
      else if x.expiresAt <= s.clock then (s, SessionExpired)
      else if x.jti != jti then
        (s.(sessions := s.sessions[sid := Revoke(x, s.clock, None)]), ReuseDetected)
      else if !userActive then
        (s.(sessions := s.sessions[sid := Revoke(x, s.clock, None)]), InactiveUser)
      else
        (Rotate(s, sid), Refreshed(|s.minted|, s.clock + Lifetime(x.remembered)))
  }

  // ---------------------------------------------------------------------------------------
  // Revocation

  /** The session a logout names: by id, else by a valid token that is some session's current one. */
  predicate Names(s: State, sid: Option<nat>, token: Option<nat>, i: nat) {
    && i in s.sessions
    && if sid.Some? && sid.value in s.sessions then i == sid.value
       else token.Some? && TokenValid(s, token.value) && s.sessions[i].jti == token.value
  }

  function RevokeOne(s: State, i: nat, schema: string, reason: Option<string>): State
    requires i in s.sessions
  {
    if s.sessions[i].schema != schema || s.sessions[i].revokedAt.Some? then s
    else s.(sessions := s.sessions[i := Revoke(s.sessions[i], s.clock, reason)])
  }

  function UnrevokedOf(s: State, user: nat, schema: string): set<nat> {
    set i <- s.sessions |
      s.sessions[i].user == user && s.sessions[i].schema == schema && s.sessions[i].revokedAt.None?
  }

  function RevokeUser(s: State, user: nat, schema: string, reason: Option<string>): State {
    s.(sessions := RevokeAmong(s.sessions, UnrevokedOf(s, user, schema), s.clock, reason))
  }

  function SessionsOnDevice(s: State, key: DeviceKey): set<nat> {
    set i <- s.sessions | s.sessions[i].device == Some(key) && Live(s.sessions[i], s.clock)
  }

  function RevokeDevice(s: State, key: DeviceKey, reason: string): State
    requires key in s.devices
  {
    var d := s.devices[key];
    s.(sessions := RevokeAmong(s.sessions, SessionsOnDevice(s, key), s.clock, Some(reason)),
       devices := s.devices[key := d.(active := false,
                                      revokedAt := if d.revokedAt.None? then Some(s.clock) else d.revokedAt)])
  }

  /** Devices that are active and were last seen before the cutoff. */
  function StaleDevices(s: State, inactiveDays: int): set<DeviceKey> {
    set k <- s.devices | s.devices[k].active && s.devices[k].lastSeenAt < s.clock - inactiveDays * DAY
  }

  /** What revoking every device in `keys` comes to, in whatever order. */
  function RevokeDevices(s: State, keys: set<DeviceKey>, reason: string): State {
    var which := set i <- s.sessions |
                       s.sessions[i].device.Some? && s.sessions[i].device.value in keys && Live(s.sessions[i], s.clock);
    s.(sessions := RevokeAmong(s.sessions, which, s.clock, Some(reason)),
       devices := map k <- s.devices ::
         if k in keys then
           s.devices[k].(active := false,
                         revokedAt := if s.devices[k].revokedAt.None? then Some(s.clock) else s.devices[k].revokedAt)
         else s.devices[k])
  }

  // ---------------------------------------------------------------------------------------
  // Runs

  datatype Op =
    | OpLogin(user: nat, schema: string, remembered: bool, client: Client, singleDevice: bool)
    | OpRefresh(jti: nat, sid: nat, schema: string, userActive: bool)
    | OpLogout(sid: nat, schema: string, reason: Option<string>)
    | OpRevokeUser(user: nat, schema: string, reason: Option<string>)
    | OpRevokeDevices(keys: set<DeviceKey>, why: string)
    | OpRevokeStale(inactiveDays: int, why: string)

  /** An operation and the time that passed since the one before. */
  datatype Event = Event(elapsed: nat, op: Op)

  function Apply(s: State, op: Op): State {
    match op
    case OpLogin(user, schema, remembered, client, singleDevice) =>
      Login(s, user, schema, remembered, client, singleDevice)
    case OpRefresh(jti, sid, schema, userActive) => Refresh(s, jti, sid, schema, userActive).0
    case OpLogout(sid, schema, reason) => if sid in s.sessions then RevokeOne(s, sid, schema, reason) else s
    case OpRevokeUser(user, schema, reason) => RevokeUser(s, user, schema, reason)
    case OpRevokeDevices(keys, why) => RevokeDevices(s, keys, why)
    case OpRevokeStale(inactiveDays, why) => RevokeDevices(s, StaleDevices(s, inactiveDays), why)
  }

  /** Time passes between requests. */
  function Later(s: State, elapsed: nat): State { s.(clock := s.clock + elapsed) }

  function Run(s: State, es: seq<Event>): State
    decreases |es|
  {
    if es == [] then s
    else
      var last := es[|es| - 1];
      Apply(Later(Run(s, es[..|es| - 1]), last.elapsed), last.op)
  }

  const START := State(0, map[], 0, map[], [], [])
}
