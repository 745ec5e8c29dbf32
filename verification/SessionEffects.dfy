/**
 What a login, a refresh and a revocation do to every row, told from the state before and the
 arguments alone: when each refresh is accepted, what every answer means, and who is locked out.
 */
module SessionEffects {
  import opened Wrappers
  import opened RefreshSessions
  import opened SessionSafety

  /** Seven days, or ninety when the user asked to be remembered. */
  function Seconds(remembered: bool): int { (if remembered then 90 else 7) * 24 * 60 * 60 }

  /** The row was revoked now; a reason is written only if one was given. */
  predicate RevokedNow(before: Session, after: Session, now: int, reason: Option<string>) {
    && after == before.(revokedAt := after.revokedAt, revokedReason := after.revokedReason)
    && after.revokedAt == Some(now)
    && after.revokedReason == (if reason.None? then before.revokedReason else reason)
  }

  /** No session but `sid` differs. */
  ghost predicate OthersKept(s: State, s': State, sid: nat) {
    && (forall i: nat | i != sid :: i in s'.sessions <==> i in s.sessions)
    && (forall i: nat | i != sid && i in s.sessions :: s'.sessions[i] == s.sessions[i])
  }

  // ---------------------------------------------------------------------------------------
  // Login

  function DeviceOf(user: nat, client: Client): Option<DeviceKey> {
    match client
    case Web => None
    case MobileNative(installation) => Some((user, installation))
  }

  /** The new session holds what the login said and a new token that expires with it. */
  lemma LoginOpensASession(s: State, user: nat, schema: string, remembered: bool, client: Client, singleDevice: bool)
    ensures var s' := Login(s, user, schema, remembered, client, singleDevice);
            var until := s.clock + Seconds(remembered);
            && s.nextSession in s'.sessions
            && s'.sessions[s.nextSession] ==
                 Session(user, schema, |s.minted|, remembered, until, client.MobileNative?,
                         DeviceOf(user, client), None, None, s.clock)
            && s'.minted == s.minted + [until]
            && s'.nextSession == s.nextSession + 1 && s'.clock == s.clock && s'.accepted == s.accepted
            && (client.Web? || !singleDevice ==> OthersKept(s, s', s.nextSession))
            && (client.Web? ==> s'.devices == s.devices)
  {
  }

  /** The user has a live session of the app on the device. */
  ghost predicate UsedLive(s: State, user: nat, key: DeviceKey) {
    exists i <- s.sessions ::
      && s.sessions[i].user == user && s.sessions[i].mobile && s.sessions[i].device == Some(key)
      && s.sessions[i].revokedAt.None? && s.sessions[i].expiresAt > s.clock
  }

  /** The device that logs in is registered and active, and the time of an earlier revocation stays.
      Under the policy the devices of the sessions it displaces are deactivated, and no other. */
  lemma LoginRegistersTheDevice(s: State, user: nat, schema: string, remembered: bool, installation: nat,
                                singleDevice: bool)
    requires s.nextSession !in s.sessions
    ensures var s' := Login(s, user, schema, remembered, MobileNative(installation), singleDevice);
            var key := (user, installation);
            && s'.devices.Keys == s.devices.Keys + {key}
            && s'.devices[key] == Device(true, if key in s.devices then s.devices[key].revokedAt else None, s.clock)
            && forall k <- s.devices | k != key ::
                 s'.devices[k] == if singleDevice && UsedLive(s, user, k)
                                  then Device(false, Some(s.clock), s.devices[k].lastSeenAt) else s.devices[k]
  {
    var key := (user, installation);
    var s1 := Created(s, user, schema, remembered, Some(key));
    if singleDevice {
      var s' := Enforce(s1, user, s.nextSession, key);
      forall k <- s.devices | k != key
        ensures s'.devices[k] == if UsedLive(s, user, k) then Device(false, Some(s.clock), s.devices[k].lastSeenAt)
                                 else s.devices[k]
      {
        DisplacedIff(s, s1, user, key, k);
      }
    }
  }

  lemma DisplacedIff(s: State, s1: State, user: nat, key: DeviceKey, k: DeviceKey)
    requires s.nextSession !in s.sessions && k != key && k in s.devices
    requires s1.clock == s.clock && k in s1.devices && s1.devices[k] == s.devices[k]
    requires s1.sessions.Keys == s.sessions.Keys + {s.nextSession}
    requires forall i <- s.sessions :: s1.sessions[i] == s.sessions[i]
    requires s1.sessions[s.nextSession].device == Some(key)
    ensures k in Enforce(s1, user, s.nextSession, key).devices
    ensures Enforce(s1, user, s.nextSession, key).devices[k] ==
            if UsedLive(s, user, k) then Device(false, Some(s.clock), s.devices[k].lastSeenAt) else s.devices[k]
  {
    var same := set i <- ActiveMobileSessions(s1.sessions, user, s1.clock) |
                      i != s.nextSession && s1.sessions[i].device == Some(key);
    var rotated := RevokeAmong(s1.sessions, same, s1.clock, Some(SESSION_ROTATED));
    var others := set i <- ActiveMobileSessions(rotated, user, s1.clock) |
                        i != s.nextSession && rotated[i].device != Some(key);
    if i :| i in s.sessions && s.sessions[i].user == user && s.sessions[i].mobile
            && s.sessions[i].device == Some(k) && s.sessions[i].revokedAt.None? && s.sessions[i].expiresAt > s.clock {
      assert i in others && rotated[i].device == Some(k);
    }
  }

  /** A login under the policy revokes the user's other live sessions of the app and says why. */
  lemma LoginUnderThePolicy(s: State, user: nat, schema: string, remembered: bool, installation: nat, i: nat)
    requires s.nextSession !in s.sessions && i in s.sessions
    ensures var x, s' := s.sessions[i], Login(s, user, schema, remembered, MobileNative(installation), true);
            && i in s'.sessions
            && if x.user == user && x.mobile && x.revokedAt.None? && x.expiresAt > s.clock
               then RevokedNow(x, s'.sessions[i], s.clock,
                               Some(if x.device == Some((user, installation)) then "session_rotated"
                                    else "device_displaced"))
               else s'.sessions[i] == x
  {
    PolicyRevokesExactly(s, user, schema, remembered, installation, i);
  }

  // ---------------------------------------------------------------------------------------
  // Refresh

  /** Accepted if and only if the session is one of the tenant's, neither revoked nor run out, the
      token is its current one, and the account is active. */
  lemma RefreshIsAcceptedIff(s: State, jti: nat, sid: nat, schema: string, userActive: bool)
    requires Inv(s)
    ensures Refresh(s, jti, sid, schema, userActive).1.Refreshed? <==>
            && sid in s.sessions
            && s.sessions[sid].schema == schema
            && s.sessions[sid].revokedAt.None?
            && s.sessions[sid].expiresAt > s.clock
            && s.sessions[sid].jti == jti
            && userActive
  {
  }

  /** What each refusal means. */
  lemma RefusalsSayWhy(s: State, jti: nat, sid: nat, schema: string, userActive: bool)
    requires Inv(s)
    ensures var r := Refresh(s, jti, sid, schema, userActive).1;
            var known := jti < |s.minted| && s.minted[jti] > s.clock;
            var found := known && sid in s.sessions;
            var own := found && s.sessions[sid].schema == schema;
            var unrevoked := own && s.sessions[sid].revokedAt.None?;
            var live := unrevoked && s.sessions[sid].expiresAt > s.clock;
            && (r == InvalidToken <==> !known)
            && (r == UnknownSession <==> known && sid !in s.sessions)
            && (r == TenantMismatch <==> found && s.sessions[sid].schema != schema)
            && (r.SessionRevoked? <==> own && s.sessions[sid].revokedAt.Some?)
            && (r.SessionRevoked? ==> r.reason == s.sessions[sid].revokedReason)
            && (r == SessionExpired <==> unrevoked && s.sessions[sid].expiresAt <= s.clock)
            && (r == ReuseDetected <==> live && s.sessions[sid].jti != jti)
            && (r == InactiveUser <==> live && s.sessions[sid].jti == jti && !userActive)
  {
  }

  /** Reuse and an inactive account revoke the session and lock it out; the other refusals change
      nothing at all. */
  lemma RefusalsLockOutIff(s: State, jti: nat, sid: nat, schema: string, userActive: bool)
    requires Inv(s)
    ensures var (s', r) := Refresh(s, jti, sid, schema, userActive);
            && (r == ReuseDetected || r == InactiveUser ==>
                  && OthersKept(s, s', sid) && sid in s'.sessions
                  && RevokedNow(s.sessions[sid], s'.sessions[sid], s.clock, None)
                  && s' == s.(sessions := s'.sessions)
                  && LockedOut(s', sid))
            && (!r.Refreshed? && r != ReuseDetected && r != InactiveUser ==> s' == s)
  {
    var (s', r) := Refresh(s, jti, sid, schema, userActive);
    if r == ReuseDetected || r == InactiveUser {
      RefreshKeepsInv(s, jti, sid, schema, userActive);
      DeadIsLockedOut(s', sid);
    }
  }

  /** An accepted refresh exchanges the token for a new one that expires with the session, seven or
      ninety days from now, and notes when session and device were last seen. */
  lemma AcceptedRefreshRotates(s: State, jti: nat, sid: nat, schema: string, userActive: bool)
    requires Inv(s) && Refresh(s, jti, sid, schema, userActive).1.Refreshed?
    ensures var (s', r) := Refresh(s, jti, sid, schema, userActive);
            var x, until := s.sessions[sid], s.clock + Seconds(s.sessions[sid].remembered);
            && r == Refreshed(|s.minted|, until)
            && sid in s'.sessions && OthersKept(s, s', sid)
            && s'.sessions[sid] == x.(jti := |s.minted|, expiresAt := until, lastSeenAt := s.clock)
            && s' == s.(sessions := s'.sessions, devices := s'.devices,
                        minted := s.minted + [until], accepted := s.accepted + [jti])
            && s'.devices.Keys == s.devices.Keys
            && forall k <- s.devices ::
                 s'.devices[k] == if x.device == Some(k) then s.devices[k].(lastSeenAt := s.clock) else s.devices[k]
  {
  }

  /** The new token works until it runs out. */
  lemma NewTokensWork(s: State, jti: nat, sid: nat, schema: string, elapsed: nat)
    requires Inv(s) && Refresh(s, jti, sid, schema, true).1.Refreshed?
    ensures var (s', r) := Refresh(s, jti, sid, schema, true);
            Refresh(Later(s', elapsed), r.jti, sid, schema, true).1.Refreshed? <==>
              elapsed < Seconds(s.sessions[sid].remembered)
  {
    AcceptedRefreshRotates(s, jti, sid, schema, true);
  }

  /** So does the token of a login. */
  lemma FirstTokenWorks(s: State, user: nat, schema: string, remembered: bool, client: Client, singleDevice: bool,
                        elapsed: nat)
    requires Inv(s)
    ensures var s' := Login(s, user, schema, remembered, client, singleDevice);
            Refresh(Later(s', elapsed), |s.minted|, s.nextSession, schema, true).1.Refreshed? <==>
              elapsed < Seconds(remembered)
  {
    LoginOpensASession(s, user, schema, remembered, client, singleDevice);
  }

  // ---------------------------------------------------------------------------------------
  // Revocation

  /** A logout is about the session with the id it carries, if there is one; else about the session
      whose current token it carries, until that runs out. There is at most one. */
  lemma LogoutNamesOne(s: State, sid: Option<nat>, token: Option<nat>, i: nat, j: nat)
    requires Inv(s)
    ensures var byId := sid.Some? && sid.value in s.sessions;
            && (byId ==> (Names(s, sid, token, i) <==> i == sid.value))
            && (!byId ==> (Names(s, sid, token, i) <==>
                             i in s.sessions && token == Some(s.sessions[i].jti) && s.sessions[i].expiresAt > s.clock))
            && (Names(s, sid, token, i) && Names(s, sid, token, j) ==> i == j)
  {
  }

  /** A logout in the session's own tenant locks it out; a logout from another changes nothing. */
  lemma LogoutLocksOut(s: State, sid: nat, schema: string, reason: Option<string>)
    requires Inv(s) && sid in s.sessions
    ensures var s', x := Apply(s, OpLogout(sid, schema, reason)), s.sessions[sid];
            && s' == s.(sessions := s'.sessions) && sid in s'.sessions && OthersKept(s, s', sid)
            && (x.schema == schema && x.revokedAt.None? ==> RevokedNow(x, s'.sessions[sid], s.clock, reason))
            && (x.schema != schema || x.revokedAt.Some? ==> s'.sessions[sid] == x)
            && (x.schema == schema ==> LockedOut(s', sid))
  {
    var op := OpLogout(sid, schema, reason);
    RevokingKeepsInv(s, op);
    if s.sessions[sid].schema == schema {
      DeadIsLockedOut(Apply(s, op), sid);
    }
  }

  /** Revoking a user locks out each of the user's sessions in the tenant and touches no other. */
  lemma RevokingAUserLocksOut(s: State, user: nat, schema: string, reason: Option<string>, i: nat)
    requires Inv(s) && i in s.sessions
    ensures var s', x := Apply(s, OpRevokeUser(user, schema, reason)), s.sessions[i];
            && s' == s.(sessions := s'.sessions) && s'.sessions.Keys == s.sessions.Keys
            && (x.user == user && x.schema == schema && x.revokedAt.None? ==>
                  RevokedNow(x, s'.sessions[i], s.clock, reason))
            && (x.user != user || x.schema != schema || x.revokedAt.Some? ==> s'.sessions[i] == x)
            && (x.user == user && x.schema == schema ==> LockedOut(s', i))
  {
    var op := OpRevokeUser(user, schema, reason);
    RevokingKeepsInv(s, op);
    if s.sessions[i].user == user && s.sessions[i].schema == schema {
      DeadIsLockedOut(Apply(s, op), i);
    }
  }

  /** The sessions and devices that revoking the devices `gone` touches. */
  ghost predicate DevicesRevoked(s: State, s': State, gone: set<DeviceKey>, why: string) {
    && s' == s.(sessions := s'.sessions, devices := s'.devices)
    && s'.sessions.Keys == s.sessions.Keys && s'.devices.Keys == s.devices.Keys
    && (forall i <- s.sessions ::
          var x := s.sessions[i];
          if x.device.Some? && x.device.value in gone && x.revokedAt.None? && x.expiresAt > s.clock
          then RevokedNow(x, s'.sessions[i], s.clock, Some(why)) else s'.sessions[i] == x)
    && (forall k <- s.devices ::
          var d := s.devices[k];
          var first := if d.revokedAt.Some? then d.revokedAt.value else s.clock;
          s'.devices[k] == if k in gone then Device(false, Some(first), d.lastSeenAt) else d)
  }

  lemma RevokingDevicesWrites(s: State, gone: set<DeviceKey>, why: string)
    ensures DevicesRevoked(s, RevokeDevices(s, gone, why), gone, why)
  {
  }

  lemma StaleAre(s: State, inactiveDays: int)
    ensures StaleDevices(s, inactiveDays) ==
            set k <- s.devices | s.devices[k].active && s.clock - s.devices[k].lastSeenAt > inactiveDays * 24 * 60 * 60
  {
  }

  /** Each session of a revoked device is locked out; a stale device is an active one that was not
      seen for that many days. */
  lemma RevokingDevicesLocksOut(s: State, op: Op, i: nat)
    requires Inv(s) && i in s.sessions && s.sessions[i].device.Some?
    requires op.OpRevokeDevices? || op.OpRevokeStale?
    ensures var gone := if op.OpRevokeDevices? then op.keys
                        else set k <- s.devices | s.devices[k].active &&
                                                  s.clock - s.devices[k].lastSeenAt > op.inactiveDays * 24 * 60 * 60;
            && DevicesRevoked(s, Apply(s, op), gone, op.why)
            && (s.sessions[i].device.value in gone ==> LockedOut(Apply(s, op), i))
  {
    var gone := if op.OpRevokeDevices? then op.keys else StaleDevices(s, op.inactiveDays);
    if op.OpRevokeStale? {
      StaleAre(s, op.inactiveDays);
    }
    RevokingDevicesWrites(s, gone, op.why);
    RevokingKeepsInv(s, op);
    if s.sessions[i].device.value in gone {
      DeadIsLockedOut(Apply(s, op), i);
    }
  }
}
