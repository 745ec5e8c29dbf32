/** What every run of logins, refreshes and revocations keeps. */
module SessionSafety {
  import opened Wrappers
  import opened RefreshSessions

  // ---------------------------------------------------------------------------------------
  // The state invariant

  /** Sessions hold distinct tokens, each with the session's own expiry, and no accepted token. */
  ghost predicate TokensOk(s: State) {
    && (forall i <- s.sessions ::
          && i < s.nextSession
          && s.sessions[i].jti < |s.minted|
          && s.minted[s.sessions[i].jti] == s.sessions[i].expiresAt
          && s.sessions[i].jti !in s.accepted)
    && (forall i, j | i in s.sessions && j in s.sessions && i != j :: s.sessions[i].jti != s.sessions[j].jti)
    && (forall t <- s.accepted :: t < |s.minted|)
    && (forall a, b | 0 <= a < b < |s.accepted| :: s.accepted[a] != s.accepted[b])
  }

  /** A mobile session names a registered device of its own user, active while the session lives. */
  ghost predicate DevicesOk(s: State) {
    forall i <- s.sessions ::
      var x := s.sessions[i];
      && (x.mobile <==> x.device.Some?)
      && (x.device.Some? ==> x.device.value.0 == x.user && x.device.value in s.devices)
      && (x.device.Some? && Live(x, s.clock) ==> s.devices[x.device.value].active)
  }

  ghost predicate Inv(s: State) { TokensOk(s) && DevicesOk(s) }

  /** `s'` differs from `s` only in what revocation writes, and in devices that no live session of
      `s'` uses any more. */
  ghost predicate OnlyRevokes(s: State, s': State) {
    && s'.sessions.Keys == s.sessions.Keys
    && s' == s.(sessions := s'.sessions, devices := s'.devices)
    && (forall i <- s.sessions ::
          || s'.sessions[i] == s.sessions[i]
          || exists reason: Option<string> :: s'.sessions[i] == Revoke(s.sessions[i], s.clock, reason))
    && s'.devices.Keys == s.devices.Keys
    && (forall i <- s.sessions ::
          var x := s'.sessions[i];
          x.device.Some? && Live(x, s.clock) && x.device.value in s.devices ==>
            s'.devices[x.device.value].active == s.devices[x.device.value].active)
  }

  lemma OnlyRevokesKeepsInv(s: State, s': State)
    requires Inv(s) && OnlyRevokes(s, s')
    ensures Inv(s')
  {
    forall i <- s.sessions
      ensures s'.sessions[i].jti == s.sessions[i].jti && s'.sessions[i].expiresAt == s.sessions[i].expiresAt
    {
    }
    assert TokensOk(s');
  }

  lemma CreatedKeepsTokens(s: State, user: nat, schema: string, remembered: bool, device: Option<DeviceKey>)
    requires TokensOk(s)
    ensures TokensOk(Created(s, user, schema, remembered, device))
  {
  }

  lemma CreatedKeepsDevices(s: State, user: nat, schema: string, remembered: bool, device: Option<DeviceKey>)
    requires DevicesOk(s) && (device.Some? ==> device.value.0 == user)
    ensures DevicesOk(Created(s, user, schema, remembered, device))
  {
  }

  /** The policy deactivates only devices whose live sessions it revokes. */
  lemma EnforceOnlyRevokes(s: State, user: nat, sid: nat, key: DeviceKey)
    requires DevicesOk(s) && sid in s.sessions && s.sessions[sid].device == Some(key) && key.0 == user
    ensures OnlyRevokes(s, Enforce(s, user, sid, key))
  {
    var s' := Enforce(s, user, sid, key);
    forall i <- s.sessions
      ensures s'.sessions[i] == s.sessions[i] ||
              exists reason: Option<string> :: s'.sessions[i] == Revoke(s.sessions[i], s.clock, reason)
    {
      if s'.sessions[i] != s.sessions[i] {
        assert s'.sessions[i] == Revoke(s.sessions[i], s.clock, Some(SESSION_ROTATED)) ||
               s'.sessions[i] == Revoke(s.sessions[i], s.clock, Some(DEVICE_DISPLACED));
      }
    }
  }

  lemma LoginKeepsInv(s: State, user: nat, schema: string, remembered: bool, client: Client, singleDevice: bool)
    requires Inv(s)
    ensures Inv(Login(s, user, schema, remembered, client, singleDevice))
  {
    var device := if client.MobileNative? then Some((user, client.installation)) else None;
    CreatedKeepsTokens(s, user, schema, remembered, device);
    CreatedKeepsDevices(s, user, schema, remembered, device);
    if device.Some? && singleDevice {
      var s1 := Created(s, user, schema, remembered, device);
      EnforceOnlyRevokes(s1, user, s.nextSession, device.value);
      OnlyRevokesKeepsInv(s1, Enforce(s1, user, s.nextSession, device.value));
    }
  }

  lemma RotateKeepsInv(s: State, sid: nat)
    requires Inv(s) && sid in s.sessions && Live(s.sessions[sid], s.clock)
    ensures Inv(Rotate(s, sid))
  {
    assert TokensOk(Rotate(s, sid));
  }

  lemma RefreshKeepsInv(s: State, jti: nat, sid: nat, schema: string, userActive: bool)
    requires Inv(s)
    ensures Inv(Refresh(s, jti, sid, schema, userActive).0)
  {
    if Refresh(s, jti, sid, schema, userActive).1.Refreshed? {
      RotateKeepsInv(s, sid);
    } else if sid in s.sessions {
      OnlyRevokesKeepsInv(s, s.(sessions := s.sessions[sid := Revoke(s.sessions[sid], s.clock, None)]));
    }
  }

  lemma RevokeDevicesOnlyRevokes(s: State, keys: set<DeviceKey>, reason: string)
    ensures OnlyRevokes(s, RevokeDevices(s, keys, reason))
  {
    var s' := RevokeDevices(s, keys, reason);
    forall i <- s.sessions
      ensures s'.sessions[i] == s.sessions[i] ||
              s'.sessions[i] == Revoke(s.sessions[i], s.clock, Some(reason))
    {
    }
  }

  lemma RevokingKeepsInv(s: State, op: Op)
    requires Inv(s)
    requires op.OpLogout? || op.OpRevokeUser? || op.OpRevokeDevices? || op.OpRevokeStale?
    ensures Inv(Apply(s, op))
  {
    match op
    case OpLogout(sid, schema, reason) => OnlyRevokesKeepsInv(s, Apply(s, op));
    case OpRevokeUser(user, schema, reason) => OnlyRevokesKeepsInv(s, Apply(s, op));
    case OpRevokeDevices(keys, why) =>
      RevokeDevicesOnlyRevokes(s, keys, why);
      OnlyRevokesKeepsInv(s, Apply(s, op));
    case OpRevokeStale(inactiveDays, why) =>
      RevokeDevicesOnlyRevokes(s, StaleDevices(s, inactiveDays), why);
      OnlyRevokesKeepsInv(s, Apply(s, op));
  }

  lemma LaterKeepsInv(s: State, elapsed: nat)
    requires Inv(s)
    ensures Inv(Later(s, elapsed))
  {
    assert TokensOk(Later(s, elapsed));
  }

  lemma ApplyKeepsInv(s: State, op: Op)
    requires Inv(s)
    ensures Inv(Apply(s, op))
  {
    match op
    case OpLogin(user, schema, remembered, client, singleDevice) =>
      LoginKeepsInv(s, user, schema, remembered, client, singleDevice);
    case OpRefresh(jti, sid, schema, userActive) => RefreshKeepsInv(s, jti, sid, schema, userActive);
    case _ => RevokingKeepsInv(s, op);
  }

  lemma {:induction false} RunKeepsInv(s: State, es: seq<Event>)
    requires Inv(s)
    ensures Inv(Run(s, es))
    decreases |es|
  {
    if es != [] {
      var init, last := Run(s, es[..|es| - 1]), es[|es| - 1];
      RunKeepsInv(s, es[..|es| - 1]);
      LaterKeepsInv(init, last.elapsed);
      ApplyKeepsInv(Later(init, last.elapsed), last.op);
    }
  }

  /** No token is accepted twice, and every live mobile session points to an active device of its
      own user, in every state that logins, refreshes and revocations can reach. */
  lemma TokensAcceptedOnceAndDevicesActive(es: seq<Event>)
    ensures var s := Run(START, es);
            && (forall a, b | 0 <= a < b < |s.accepted| :: s.accepted[a] != s.accepted[b])
            && (forall i <- s.sessions | s.sessions[i].mobile && Live(s.sessions[i], s.clock) ::
                  && s.sessions[i].device.Some?
                  && s.sessions[i].device.value.0 == s.sessions[i].user
                  && s.sessions[i].device.value in s.devices
                  && s.devices[s.sessions[i].device.value].active)
  {
    RunKeepsInv(START, es);
  }

  // ---------------------------------------------------------------------------------------
  // Revocation is final

  /** What the policy does to each session once `sid` exists: the user's other live mobile sessions
      are revoked, as rotated on the same device and as displaced on others; nothing else is. */
  lemma EnforceRevokesExactly(s: State, user: nat, sid: nat, key: DeviceKey, i: nat)
    requires i in s.sessions
    ensures i in Enforce(s, user, sid, key).sessions
    ensures Enforce(s, user, sid, key).sessions[i] ==
            if i == sid || i !in ActiveMobileSessions(s.sessions, user, s.clock) then s.sessions[i]
            else Revoke(s.sessions[i], s.clock,
                        if s.sessions[i].device == Some(key) then Some(SESSION_ROTATED) else Some(DEVICE_DISPLACED))
  {
  }

  lemma LoginFreezesDead(s: State, op: Op, i: nat)
    requires s.nextSession !in s.sessions && op.OpLogin? && i in s.sessions && !Live(s.sessions[i], s.clock)
    ensures i in Apply(s, op).sessions && Apply(s, op).sessions[i] == s.sessions[i]
  {
    if op.client.MobileNative? {
      var key := (op.user, op.client.installation);
      var s1 := Created(s, op.user, op.schema, op.remembered, Some(key));
      assert i in s1.sessions && s1.sessions[i] == s.sessions[i];
      EnforceRevokesExactly(s1, op.user, s.nextSession, key, i);
    }
  }

  lemma OtherOpsFreezeDead(s: State, op: Op, i: nat)
    requires !op.OpLogin? && i in s.sessions && !Live(s.sessions[i], s.clock)
    ensures var s' := Apply(s, op);
            && s'.clock == s.clock
            && i in s'.sessions
            && !Live(s'.sessions[i], s.clock)
            && (s.sessions[i].revokedAt.Some? ==> s'.sessions[i] == s.sessions[i])
  {
  }

  lemma ApplyFreezesDead(s: State, op: Op, i: nat)
    requires s.nextSession !in s.sessions && i in s.sessions && !Live(s.sessions[i], s.clock)
    ensures var s' := Apply(s, op);
            && s'.clock == s.clock
            && i in s'.sessions
            && !Live(s'.sessions[i], s.clock)
            && (s.sessions[i].revokedAt.Some? ==> s'.sessions[i] == s.sessions[i])
  {
    if op.OpLogin? {
      LoginFreezesDead(s, op, i);
      LoginKeepsClock(s, op);
    } else {
      OtherOpsFreezeDead(s, op, i);
    }
  }

  lemma LoginKeepsClock(s: State, op: Op)
    requires op.OpLogin?
    ensures Apply(s, op).clock == s.clock
  {
  }

  /** A revoked session's row never changes again, so its time and reason are written once; an
      expired or revoked session never becomes live again. */
  lemma {:induction false} DeadStaysDead(s: State, es: seq<Event>, i: nat)
    requires Inv(s) && i in s.sessions && !Live(s.sessions[i], s.clock)
    ensures var s' := Run(s, es);
            && i in s'.sessions
            && !Live(s'.sessions[i], s'.clock)
            && (s.sessions[i].revokedAt.Some? ==> s'.sessions[i] == s.sessions[i])
    decreases |es|
  {
    if es != [] {
      var init, last := es[..|es| - 1], es[|es| - 1];
      var before := Run(s, init);
      DeadStaysDead(s, init, i);
      RunKeepsInv(s, init);
      ApplyFreezesDead(Later(before, last.elapsed), last.op, i);
    }
  }

  /** No refresh of the session is accepted, whatever happens before it is tried. */
  ghost predicate LockedOut(s: State, sid: nat) {
    forall es: seq<Event>, jti: nat, schema: string, userActive: bool ::
      !Refresh(Run(s, es), jti, sid, schema, userActive).1.Refreshed?
  }

  lemma DeadIsLockedOut(s: State, sid: nat)
    requires Inv(s) && sid in s.sessions && !Live(s.sessions[sid], s.clock)
    ensures LockedOut(s, sid)
  {
    forall es: seq<Event>, jti: nat, schema: string, userActive: bool
      ensures !Refresh(Run(s, es), jti, sid, schema, userActive).1.Refreshed?
    {
      DeadStaysDead(s, es, sid);
    }
  }

  /** Presenting any other token than the current one for a live session locks the session out just
      when the presented token has not itself run out and comes through the session's own tenant.
      An expired superseded token is refused before the session is looked up, so the reuse goes
      unnoticed. */
  lemma ReplayLocksOutIffTokenUnexpired(s: State, jti: nat, sid: nat, schema: string, userActive: bool)
    requires Inv(s) && sid in s.sessions && Live(s.sessions[sid], s.clock)
    requires jti != s.sessions[sid].jti
    ensures LockedOut(Refresh(s, jti, sid, schema, userActive).0, sid) <==>
              TokenValid(s, jti) && schema == s.sessions[sid].schema
  {
    var s' := Refresh(s, jti, sid, schema, userActive).0;
    if TokenValid(s, jti) && schema == s.sessions[sid].schema {
      RefreshKeepsInv(s, jti, sid, schema, userActive);
      DeadIsLockedOut(s', sid);
    } else {
      assert Run(s', []) == s;
      assert Refresh(Run(s', []), s.sessions[sid].jti, sid, s.sessions[sid].schema, true).1.Refreshed?;
    }
  }

  /** A run in which it goes unnoticed: log in, refresh a day later, present the first token after
      its seven days, while the session has half a day left. */
  lemma ExpiredReplayGoesUnnoticed()
    ensures var login := Event(0, OpLogin(1, "t", false, Web, false));
            var rotation := Event(DAY, OpRefresh(0, 0, "t", true));
            var s := Run(START, [login, rotation, Event(6 * DAY + DAY / 2, OpRefresh(0, 0, "t", true))]);
            && s.accepted == [0]
            && 0 in s.sessions
            && Live(s.sessions[0], s.clock)
            && !LockedOut(s, 0)
  {
    var login := Event(0, OpLogin(1, "t", false, Web, false));
    var rotation := Event(DAY, OpRefresh(0, 0, "t", true));
    var replay := Event(6 * DAY + DAY / 2, OpRefresh(0, 0, "t", true));
    var es := [login, rotation, replay];
    assert es[..2] == [login, rotation] && es[..2][..1] == [login] && [login][..0] == [];
    var s1 := Apply(Later(START, login.elapsed), login.op);
    assert Run(START, [login]) == s1;
    var s2 := Apply(Later(s1, rotation.elapsed), rotation.op);
    assert Run(START, [login, rotation]) == s2;
    var s3 := Apply(Later(s2, replay.elapsed), replay.op);
    assert Run(START, es) == s3;
    assert s3 == s2.(clock := s3.clock);
    assert Run(s3, []) == s3;
    assert Refresh(Run(s3, []), 1, 0, "t", true).1.Refreshed?;
  }

  // ---------------------------------------------------------------------------------------
  // One mobile device

  ghost predicate AtMostOneMobile(s: State, user: nat) {
    var active := ActiveMobileSessions(s.sessions, user, s.clock);
    forall i, j | i in active && j in active :: i == j
  }

  predicate MobileLoginOf(op: Op, user: nat) {
    op.OpLogin? && op.user == user && op.client.MobileNative?
  }

  /** A mobile login under the policy revokes the user's other live mobile sessions, saying why,
      and leaves every other session as it was. */
  lemma PolicyRevokesExactly(s: State, user: nat, schema: string, remembered: bool, installation: nat, i: nat)
    requires s.nextSession !in s.sessions && i in s.sessions
    ensures var s' := Login(s, user, schema, remembered, MobileNative(installation), true);
            && i in s'.sessions
            && s'.sessions[i] ==
                 if i !in ActiveMobileSessions(s.sessions, user, s.clock) then s.sessions[i]
                 else Revoke(s.sessions[i], s.clock,
                             if s.sessions[i].device == Some((user, installation))
                             then Some(SESSION_ROTATED) else Some(DEVICE_DISPLACED))
  {
    var s1 := Created(s, user, schema, remembered, Some((user, installation)));
    EnforceRevokesExactly(s1, user, s.nextSession, (user, installation), i);
  }

  /** It leaves the user with exactly one live mobile session, the new one. */
  lemma PolicyLeavesOne(s: State, user: nat, schema: string, remembered: bool, installation: nat)
    requires s.nextSession !in s.sessions
    ensures var s' := Login(s, user, schema, remembered, MobileNative(installation), true);
            ActiveMobileSessions(s'.sessions, user, s'.clock) == {s.nextSession}
  {
    var key := (user, installation);
    var s1 := Created(s, user, schema, remembered, Some(key));
    var s' := Enforce(s1, user, s.nextSession, key);
    assert s'.sessions.Keys == s1.sessions.Keys == s.sessions.Keys + {s.nextSession};
    forall i <- s'.sessions
      ensures i in ActiveMobileSessions(s'.sessions, user, s'.clock) <==> i == s.nextSession
    {
      EnforceRevokesExactly(s1, user, s.nextSession, key, i);
    }
  }

  lemma LaterKeepsOneMobile(s: State, elapsed: nat, user: nat)
    requires AtMostOneMobile(s, user)
    ensures AtMostOneMobile(Later(s, elapsed), user)
  {
    var before := ActiveMobileSessions(s.sessions, user, s.clock);
    var after := ActiveMobileSessions(s.sessions, user, s.clock + elapsed);
    assert after <= before;
  }

  lemma ApplyKeepsOneMobile(s: State, op: Op, user: nat)
    requires Inv(s)
    requires AtMostOneMobile(s, user) || MobileLoginOf(op, user)
    requires MobileLoginOf(op, user) ==> op.singleDevice
    ensures AtMostOneMobile(Apply(s, op), user)
  {
    var s' := Apply(s, op);
    if MobileLoginOf(op, user) {
      PolicyLeavesOne(s, user, op.schema, op.remembered, op.client.installation);
    } else {
      forall i | i in ActiveMobileSessions(s'.sessions, user, s'.clock)
        ensures i in ActiveMobileSessions(s.sessions, user, s.clock)
      {
        NoSessionAppears(s, op, user, i);
      }
    }
  }

  lemma NoSessionAppears(s: State, op: Op, user: nat, i: nat)
    requires Inv(s) && !MobileLoginOf(op, user)
    requires i in ActiveMobileSessions(Apply(s, op).sessions, user, Apply(s, op).clock)
    ensures i in ActiveMobileSessions(s.sessions, user, s.clock)
  {
    if i in s.sessions && !Live(s.sessions[i], s.clock) {
      ApplyFreezesDead(s, op, i);
      assert false;
    }
  }

  /** The policy takes hold of a user with the first mobile login under it, and holds for as long
      as it stays on, whatever the state it was switched on in. */
  lemma {:induction false} PolicyTakesHold(s: State, es: seq<Event>, user: nat)
    requires Inv(s)
    requires forall e <- es :: MobileLoginOf(e.op, user) ==> e.op.singleDevice
    requires AtMostOneMobile(s, user) || exists e <- es :: MobileLoginOf(e.op, user)
    ensures AtMostOneMobile(Run(s, es), user)
    decreases |es|
  {
    if es != [] {
      var init, last := es[..|es| - 1], es[|es| - 1];
      RunKeepsInv(s, init);
      if !MobileLoginOf(last.op, user) {
        assert forall e <- es :: e == last || e in init;
        PolicyTakesHold(s, init, user);
      }
      var before := Run(s, init);
      LaterKeepsInv(before, last.elapsed);
      if AtMostOneMobile(before, user) {
        LaterKeepsOneMobile(before, last.elapsed, user);
      }
      ApplyKeepsOneMobile(Later(before, last.elapsed), last.op, user);
    }
  }

  /** With the policy on throughout, no user ever has two live mobile sessions. */
  lemma OneMobileSessionPerUser(es: seq<Event>, user: nat)
    requires forall e <- es :: MobileLoginOf(e.op, user) ==> e.op.singleDevice
    ensures AtMostOneMobile(Run(START, es), user)
  {
    PolicyTakesHold(START, es, user);
  }
}
