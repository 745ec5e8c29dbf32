/** The session and device tables, updated in place. */
module SessionStore {
  import opened Wrappers
  import opened RefreshSessions
  import SessionSafety

  class Store {
    var clock: int
    var sessions: map<nat, Session>
    var nextSession: nat
    var devices: map<DeviceKey, Device>
    var minted: seq<int>
    var accepted: seq<nat>

    function View(): State
      reads this
    {
      State(clock, sessions, nextSession, devices, minted, accepted)
    }

    constructor ()
      ensures View() == START
    {
      clock, sessions, nextSession, devices, minted, accepted := 0, map[], 0, map[], [], [];
    }

    method Mint(expiresAt: int) returns (jti: nat)
      modifies this
      ensures jti == |old(minted)| && View() == old(View()).(minted := old(minted) + [expiresAt])
    {
      jti := |minted|;
      minted := minted + [expiresAt];
    }

    method UpdateRevoked(which: set<nat>, reason: Option<string>)
      modifies this
      ensures View() == old(View()).(sessions := RevokeAmong(old(sessions), which, clock, reason))
    {
      sessions := map i <- sessions :: if i in which then Revoke(sessions[i], clock, reason) else sessions[i];
    }

    method CreateRefreshSession(
      user: nat, schema: string, remembered: bool, client: Client, singleDevice: bool) returns (sid: nat, jti: nat)
      modifies this
      ensures View() == Login(old(View()), user, schema, remembered, client, singleDevice)
      ensures sid == old(nextSession) && jti == |old(minted)|
    {
      var expiresAt := clock + Lifetime(remembered);
      jti := Mint(expiresAt);
      sid := nextSession;
      nextSession := nextSession + 1;
      sessions := sessions[sid := Session(user, schema, jti, remembered, expiresAt, client.MobileNative?,
                                          None, None, None, clock)];
      if client.MobileNative? {
        var key := RegisterMobileDevice(user, sid, client.installation);
        assert View() == Created(old(View()), user, schema, remembered, Some(key));
        if singleDevice {
          EnforceSingleMobileDevice(user, sid, key);
        }
      }
    }

    method RegisterMobileDevice(user: nat, sid: nat, installation: nat) returns (key: DeviceKey)
      requires sid in sessions
      modifies this
      ensures key == (user, installation)
      ensures View() == old(View()).(devices := Register(old(devices), key, clock),
                                     sessions := old(sessions)[sid := old(sessions)[sid].(device := Some(key))])
    {
      key := (user, installation);
      if key in devices {
        devices := devices[key := devices[key].(active := true, lastSeenAt := clock)];
      } else {
        devices := devices[key := Device(true, None, clock)];
      }
      sessions := sessions[sid := sessions[sid].(device := Some(key))];
    }

    method EnforceSingleMobileDevice(user: nat, sid: nat, key: DeviceKey)
      modifies this
      ensures View() == Enforce(old(View()), user, sid, key)
    {
      var same := set i <- ActiveMobileSessions(sessions, user, clock) | i != sid && sessions[i].device == Some(key);
      UpdateRevoked(same, Some(SESSION_ROTATED));
      var others := set i <- ActiveMobileSessions(sessions, user, clock) |
                          i != sid && sessions[i].device != Some(key);
      var displaced := set k <- devices | exists i <- others :: sessions[i].device == Some(k);
      UpdateRevoked(others, Some(DEVICE_DISPLACED));
      if displaced == {} {
        assert devices == Enforce(old(View()), user, sid, key).devices;
        return;
      }
      devices := map k <- devices ::
        if k in displaced then devices[k].(active := false, revokedAt := Some(clock)) else devices[k];
    }

    method RefreshAuthTokens(jti: nat, sid: nat, schema: string, userActive: bool) returns (r: RefreshResult)
      modifies this
      ensures (View(), r) == Refresh(old(View()), jti, sid, schema, userActive)
    {
      if jti >= |minted| || minted[jti] <= clock {
        return InvalidToken;
      }
      if sid !in sessions {
        return UnknownSession;
      }
      var session := sessions[sid];
      if session.schema != schema {
        return TenantMismatch;
      }
      if session.revokedAt.Some? {
        return SessionRevoked(session.revokedReason);
      }
      if session.expiresAt <= clock {
        return SessionExpired;
      }
      if session.jti != jti {
        sessions := sessions[sid := session.(revokedAt := Some(clock))];
        return ReuseDetected;
      }
      if !userActive {
        sessions := sessions[sid := session.(revokedAt := Some(clock))];
        return InactiveUser;
      }
      var expiresAt := clock + Lifetime(session.remembered);
      var newJti := Mint(expiresAt);
      accepted := accepted + [jti];
      session := session.(jti := newJti, expiresAt := expiresAt);
      sessions := sessions[sid := session];
      TouchLastSeen(sid);
      assert View() == Rotate(old(View()), sid);
      r := Refreshed(newJti, expiresAt);
    }

    method TouchLastSeen(sid: nat)
      requires sid in sessions
      modifies this
      ensures View() == old(View()).(
                          sessions := old(sessions)[sid := old(sessions)[sid].(lastSeenAt := clock)],
                          devices := Touch(old(devices), old(sessions)[sid].device, clock))
    {
      var session := sessions[sid];
      sessions := sessions[sid := session.(lastSeenAt := clock)];
      if session.device.Some? && session.device.value in devices {
        devices := devices[session.device.value := devices[session.device.value].(lastSeenAt := clock)];
      }
    }

    /** Logout. The session is looked up by id, else by the token; `done` says whether one of the
        caller's tenant was found. */
    method RevokeRefreshSession(sid: Option<nat>, token: Option<nat>, schema: string, reason: Option<string>)
      returns (done: bool)
      modifies this
      ensures !done ==> View() == old(View())
      ensures done ==>
                exists i: nat ::
                  && Names(old(View()), sid, token, i)
                  && old(View()).sessions[i].schema == schema
                  && View() == RevokeOne(old(View()), i, schema, reason)
      ensures SessionSafety.TokensOk(old(View())) ==>
                (done <==> exists i: nat ::
                  Names(old(View()), sid, token, i) && old(View()).sessions[i].schema == schema)
    {
      var found: Option<nat>, matches: set<nat> := None, {};
      if sid.Some? && sid.value in sessions {
        found := sid;
      }
      if found.None? && token.Some? {
        if token.value >= |minted| || minted[token.value] <= clock {
          return false;
        }
        matches := set k <- sessions | sessions[k].jti == token.value;
        if matches != {} {
          var i :| i in matches;
          found := Some(i);
        }
      }
      assert found.Some? ==> Names(View(), sid, token, found.value);
      if found.None? || sessions[found.value].schema != schema {
        if SessionSafety.TokensOk(View()) {
          forall i: nat | Names(View(), sid, token, i)
            ensures found == Some(i)
          {
            assert found.None? ==> i in matches;
          }
        }
        return false;
      }
      if sessions[found.value].revokedAt.None? {
        sessions := sessions[found.value := Revoke(sessions[found.value], clock, reason)];
      }
      done := true;
    }

    method RevokeAllForUser(user: nat, schema: string, reason: Option<string>) returns (revoked: nat)
      modifies this
      ensures View() == RevokeUser(old(View()), user, schema, reason)
      ensures revoked == |UnrevokedOf(old(View()), user, schema)|
    {
      var which := UnrevokedOf(View(), user, schema);
      UpdateRevoked(which, reason);
      revoked := |which|;
    }

    method RevokeMobileDevice(key: DeviceKey, reason: string) returns (revoked: nat)
      requires key in devices
      modifies this
      ensures View() == RevokeDevice(old(View()), key, reason)
      ensures revoked == |SessionsOnDevice(old(View()), key)|
    {
      var which := set i <- sessions | sessions[i].device == Some(key) && Live(sessions[i], clock);
      assert which == SessionsOnDevice(View(), key);
      UpdateRevoked(which, Some(reason));
      revoked := |which|;
      var device := devices[key];
      if device.active {
        device := device.(active := false);
      }
      if device.revokedAt.None? {
        device := device.(revokedAt := Some(clock));
      }
      devices := devices[key := device];
    }

    /** Revoking one device after the other comes to revoking all of them at once, and the counts
        add up to the live sessions there were on any of them. */
    method RevokeMobileDevices(keys: seq<DeviceKey>, reason: string) returns (revoked: nat)
      requires forall k <- keys :: k in devices
      modifies this
      ensures View() == RevokeDevices(old(View()), Members(keys), reason)
      ensures revoked == |LiveOnAny(old(View()), Members(keys))|
    {
      ghost var s := View();
      revoked := 0;
      assert View() == RevokeDevices(s, {}, reason);
      for n := 0 to |keys|
        invariant devices.Keys == s.devices.Keys
        invariant View() == RevokeDevices(s, Members(keys[..n]), reason)
        invariant revoked == |LiveOnAny(s, Members(keys[..n]))|
      {
        assert keys[..n + 1] == keys[..n] + [keys[n]];
        RevokeOneMore(s, Members(keys[..n]), keys[n], reason);
        assert Members(keys[..n + 1]) == Members(keys[..n]) + {keys[n]};
        var count := RevokeMobileDevice(keys[n], reason);
        revoked := revoked + count;
      }
      assert keys[..|keys|] == keys;
    }

    method RevokeStaleMobileDevices(inactiveDays: int, reason: string) returns (revoked: nat)
      modifies this
      ensures View() == RevokeDevices(old(View()), StaleDevices(old(View()), inactiveDays), reason)
      ensures revoked == |LiveOnAny(old(View()), StaleDevices(old(View()), inactiveDays))|
    {
      var cutoff := clock - inactiveDays * DAY;
      var stale := set k <- devices | devices[k].active && devices[k].lastSeenAt < cutoff;
      var rest, rows := stale, [];
      while rest != {}
        invariant Members(rows) + rest == stale
      {
        var k :| k in rest;
        rest, rows := rest - {k}, rows + [k];
      }
      assert stale == StaleDevices(View(), inactiveDays);
      assert forall k <- rows :: k in Members(rows);
      revoked := RevokeMobileDevices(rows, reason);
    }
  }

  function Members(keys: seq<DeviceKey>): set<DeviceKey> { set k | k in keys }

  ghost function LiveOnAny(s: State, keys: set<DeviceKey>): set<nat> {
    set i <- s.sessions |
          s.sessions[i].device.Some? && s.sessions[i].device.value in keys && Live(s.sessions[i], s.clock)
  }

  lemma RevokeOneMore(s: State, keys: set<DeviceKey>, key: DeviceKey, reason: string)
    requires key in s.devices
    ensures var s1 := RevokeDevices(s, keys, reason);
            && RevokeDevice(s1, key, reason) == RevokeDevices(s, keys + {key}, reason)
            && |LiveOnAny(s, keys + {key})| == |LiveOnAny(s, keys)| + |SessionsOnDevice(s1, key)|
  {
    var s1 := RevokeDevices(s, keys, reason);
    var s2, s' := RevokeDevice(s1, key, reason), RevokeDevices(s, keys + {key}, reason);
    assert s2.sessions == s'.sessions;
    assert s2.devices == s'.devices;
    assert LiveOnAny(s, keys) !! SessionsOnDevice(s1, key);
    assert LiveOnAny(s, keys + {key}) == LiveOnAny(s, keys) + SessionsOnDevice(s1, key);
  }
}
