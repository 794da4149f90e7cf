/** The session service: a store of sessions, devices and locations whose methods change it in
    place. Each state-changing method is tied to its transition in SessionModel; the read-only
    methods state their answers directly. */
module SessionService {
  import opened Wrappers
  import opened Http
  import opened SessionModel
  import opened DeviceGrouping

  /** Some device row, of any user, carries this deviceId. */
  ghost predicate DeviceKnown(db: Db, deviceId: string) {
    exists k :: k in db.devices && db.devices[k].deviceId == deviceId
  }

  /** A device the user registered is known to the existence check. */
  lemma RegisteredDeviceIsKnown(db: Db, userId: Uuid, deviceId: string)
    requires Valid(db) && FindDevice(db.devices, userId, deviceId).Some?
    ensures DeviceKnown(db, deviceId)
  {
    var k := FindDevice(db.devices, userId, deviceId).value;
    assert db.devices[k].deviceId == deviceId;
  }

  /** The converse fails: the check ignores the owner, so another user's device answers true
      for a user who has never registered it. */
  lemma KnownDeviceMayBelongToAnother()
    ensures var attrs := DeviceAttributes(None, None, None, None, None, None, None, None, None, None);
      var db := Db(map[], map[0 := Device(1, "phone", attrs, false)], [], 1);
      Valid(db) && DeviceKnown(db, "phone") && FindDevice(db.devices, 2, "phone").None?
  {
    var attrs := DeviceAttributes(None, None, None, None, None, None, None, None, None, None);
    var db := Db(map[], map[0 := Device(1, "phone", attrs, false)], [], 1);
    assert db.devices[0].deviceId == "phone";
  }

  /** A session row is live on the user's device `deviceId`. */
  ghost predicate IsLiveSessionOn(db: Db, userId: Uuid, deviceId: string, k: Uuid) {
    && k in db.sessions
    && db.sessions[k].userId == userId
    && db.sessions[k].revokedAt.None?
    && db.sessions[k].device.Some?
    && db.sessions[k].device.value in db.devices
    && Matches(db.devices[db.sessions[k].device.value], userId, deviceId)
  }

  /** A non-empty finite set of sessions has one with the greatest `lastSeenAt`. */
  lemma {:induction false} MostRecentExists(sessions: map<Uuid, Session>, ks: set<Uuid>)
    requires ks != {} && ks <= sessions.Keys
    ensures exists b :: b in ks && forall k :: k in ks ==> sessions[k].lastSeenAt <= sessions[b].lastSeenAt
    decreases |ks|
  {
    var x :| x in ks;
    if ks != {x} {
      MostRecentExists(sessions, ks - {x});
      var b :| b in ks - {x} && forall k :: k in ks - {x} ==> sessions[k].lastSeenAt <= sessions[b].lastSeenAt;
      if sessions[x].lastSeenAt > sessions[b].lastSeenAt {
        assert forall k :: k in ks ==> sessions[k].lastSeenAt <= sessions[x].lastSeenAt;
      } else {
        assert forall k :: k in ks ==> sessions[k].lastSeenAt <= sessions[b].lastSeenAt;
      }
    }
  }

  class SessionStore {
    var sessions: map<Uuid, Session>
    var devices: map<Uuid, Device>
    var locations: seq<Location>
    /** The uuid source: the next identifier it hands out. */
    var nextId: nat

    function State(): Db
      reads this
    {
      Db(sessions, devices, locations, nextId)
    }

    ghost predicate Valid()
      reads this
    {
      SessionModel.Valid(State())
    }

    constructor ()
      ensures Valid() && State() == Db(map[], map[], [], 0)
    {
      sessions, devices, locations, nextId := map[], map[], [], 0;
    }

    /** uuidv4(): an identifier never handed out before. */
    method NewUuid() returns (id: Uuid)
      modifies this
      ensures id == old(nextId) && nextId == old(nextId) + 1
      ensures sessions == old(sessions) && devices == old(devices) && locations == old(locations)
    {
      id := nextId;
      nextId := nextId + 1;
    }

    /** The device half of createSession: the user's row for this deviceId, inserted if missing. */
    method UpsertDevice(userId: Uuid, info: DeviceInfo) returns (device: Uuid)
      requires Valid()
      modifies this
      ensures Valid()
      ensures (State(), device) == SessionModel.UpsertDevice(old(State()), userId, info)
    {
      var existing := FindDevice(devices, userId, info.deviceId);
      if existing.Some? {
        device := existing.value;
      } else {
        device := NewUuid();
        devices := devices[device := NewDevice(userId, info)];
      }
    }

    /** Saves a location observation for `device` when one is given. */
    method RecordLocation(device: Uuid, locationInfo: Option<LocationInfo>)
      requires Valid() && device in devices
      modifies this
      ensures Valid()
      ensures State() == SessionModel.RecordLocation(old(State()), device, locationInfo)
    {
      if locationInfo.Some? {
        locations := locations + [Location(device, locationInfo.value)];
      }
    }

    method CreateSession(userId: Uuid, deviceInfo: Option<DeviceInfo>, locationInfo: Option<LocationInfo>, now: Time)
      returns (issued: Issued)
      requires Valid()
      modifies this
      ensures Valid()
      ensures (State(), issued) == SessionModel.CreateSession(old(State()), userId, deviceInfo, locationInfo, now)
    {
      var device: Option<Uuid> := None;
      if deviceInfo.Some? {
        var k := UpsertDevice(userId, deviceInfo.value);
        RecordLocation(k, locationInfo);
        device := Some(k);
      }
      var refreshJti := NewUuid();
      var accessJti := NewUuid();
      var sessionId := NewUuid();
      sessions := sessions[sessionId := Session(userId, device, refreshJti, accessJti, now, None)];
      issued := Issued(sessionId, refreshJti, accessJti);
    }

    /** Whether any user at all has registered a device with this deviceId. */
    method CheckIsDeviceExists(deviceId: string) returns (exists_: bool)
      requires Valid()
      ensures exists_ <==> DeviceKnown(State(), deviceId)
    {
      var owners := set k | k in devices && devices[k].deviceId == deviceId;
      exists_ := owners != {};
      if exists_ {
        var k :| k in owners;
        assert devices[k].deviceId == deviceId;
      } else {
        forall k | k in devices ensures devices[k].deviceId != deviceId {
          assert k !in owners;
        }
      }
    }

    /** The user's most recently seen live session on their device `deviceId`, if any. */
    method FindActiveSessionByDevice(userId: Uuid, deviceId: string) returns (r: Option<Uuid>)
      requires Valid()
      ensures r.Some? ==> IsLiveSessionOn(State(), userId, deviceId, r.value)
      ensures r.Some? ==> forall k :: IsLiveSessionOn(State(), userId, deviceId, k) ==>
                            sessions[k].lastSeenAt <= sessions[r.value].lastSeenAt
      ensures r.None? ==> forall k :: !IsLiveSessionOn(State(), userId, deviceId, k)
    {
      var row := FindDevice(devices, userId, deviceId);
      if row.None? {
        return None;
      }
      var live := set k | k in sessions && sessions[k].userId == userId && sessions[k].device == row && sessions[k].revokedAt.None?;
      forall k ensures IsLiveSessionOn(State(), userId, deviceId, k) <==> k in live {
        if IsLiveSessionOn(State(), userId, deviceId, k) {
          var d := sessions[k].device.value;
          assert Matches(devices[d], devices[row.value].userId, devices[row.value].deviceId);
        }
      }
      if live == {} {
        return None;
      }
      MostRecentExists(sessions, live);
      var best :| best in live && forall k :: k in live ==> sessions[k].lastSeenAt <= sessions[best].lastSeenAt;
      return Some(best);
    }

    method RevalidateSession(sessionId: Uuid, locationInfo: Option<LocationInfo>, now: Time)
      returns (r: Result<Issued, Exception>)
      requires Valid()
      modifies this
      ensures Valid()
      ensures (State(), r) == SessionModel.Revalidate(old(State()), sessionId, locationInfo, now)
    {
      if sessionId !in sessions {
        return Err(NotFound(SessionNotFound));
      }
      var session := sessions[sessionId];
      if session.revokedAt.Some? {
        return Err(Unauthorized(RevokedRevalidation));
      }
      if locationInfo.Some? && session.device.Some? {
        locations := locations + [Location(session.device.value, locationInfo.value)];
      }
      var refreshJti := NewUuid();
      var accessJti := NewUuid();
      session := session.(refreshTokenJti := refreshJti, accessTokenJti := accessJti, lastSeenAt := now);
      sessions := sessions[sessionId := session];
      r := Ok(Issued(sessionId, refreshJti, accessJti));
    }

    /** The user's device row `deviceRowId`; NotFound when it is not one of theirs. */
    method GetUserDeviceById(userId: Uuid, deviceRowId: Uuid) returns (r: Result<Device, Exception>)
      requires Valid()
      ensures r.Ok? <==> deviceRowId in devices && devices[deviceRowId].userId == userId
      ensures r.Ok? ==> r.value == devices[deviceRowId]
      ensures r.Err? ==> r.error == NotFound(DeviceNotFound)
    {
      if deviceRowId in devices && devices[deviceRowId].userId == userId {
        r := Ok(devices[deviceRowId]);
      } else {
        r := Err(NotFound(DeviceNotFound));
      }
    }

    method GetSessionById(sessionId: Uuid) returns (r: Result<Session, Exception>)
      requires Valid()
      ensures r.Ok? <==> sessionId in sessions
      ensures r.Ok? ==> r.value == sessions[sessionId]
      ensures r.Err? ==> r.error == NotFound(SessionNotFound)
    {
      if sessionId !in sessions {
        return Err(NotFound(SessionNotFound));
      }
      r := Ok(sessions[sessionId]);
    }

    /** getUserSessions: every session row of the user, revoked ones included. */
    method GetUserSessions(userId: Uuid) returns (r: map<Uuid, Session>)
      ensures forall k :: k in r <==> k in sessions && sessions[k].userId == userId
      ensures forall k :: k in r ==> r[k] == sessions[k]
    {
      r := map k | k in sessions && sessions[k].userId == userId :: sessions[k];
    }

    method RevokeSession(sessionId: Uuid, now: Time) returns (r: Result<Session, Exception>)
      requires Valid()
      modifies this
      ensures Valid()
      ensures (State(), r) == SessionModel.RevokeSession(old(State()), sessionId, now)
    {
      if sessionId !in sessions {
        return Err(NotFound(SessionNotFound));
      }
      var session := sessions[sessionId];
      session := session.(revokedAt := Some(now));
      sessions := sessions[sessionId := session];
      r := Ok(session);
    }

    method ValidateAndRotateRefresh(sessionId: Uuid, presentedJti: Uuid, now: Time)
      returns (r: Result<Issued, Exception>)
      requires Valid()
      modifies this
      ensures Valid()
      ensures (State(), r) == SessionModel.ValidateAndRotateRefresh(old(State()), sessionId, presentedJti, now)
    {
      if sessionId !in sessions {
        return Err(Unauthorized(InvalidRefreshToken));
      }
      var session := sessions[sessionId];
      if session.revokedAt.Some? || session.refreshTokenJti != presentedJti {
        session := session.(revokedAt := Some(now));
        sessions := sessions[sessionId := session];
        return Err(Unauthorized(InvalidRefreshToken));
      }
      var newRefreshJti := NewUuid();
      var newAccessJti := NewUuid();
      session := session.(refreshTokenJti := newRefreshJti, accessTokenJti := newAccessJti, lastSeenAt := now);
      sessions := sessions[sessionId := session];
      r := Ok(Issued(sessionId, newRefreshJti, newAccessJti));
    }

    /** The inner loop of the grouping: whether a device has a live session, and its latest activity. */
    method ScanDeviceSessions(did: Uuid) returns (status: DeviceStatus)
      requires Valid()
      ensures status.hasActiveSession == HasActiveSession(State(), did)
      ensures IsLastActivity(State(), did, status.lastActivityAt)
    {
      var all := set k | k in sessions && sessions[k].device == Some(did);
      var todo := all;
      var hasActiveSession := false;
      var lastActivityAt: Option<Time> := None;
      while todo != {}
        invariant todo <= all
        invariant hasActiveSession <==> exists k :: k in all - todo && sessions[k].revokedAt.None?
        invariant IsMaxOver(sessions, all - todo, lastActivityAt)
        decreases |todo|
      {
        var k :| k in todo;
        var session := sessions[k];
        if session.revokedAt.None? {
          hasActiveSession := true;
        }
        if lastActivityAt.None? || session.lastSeenAt > lastActivityAt.value {
          lastActivityAt := Some(session.lastSeenAt);
        }
        todo := todo - {k};
      }
      assert all - todo == SessionsOf(State(), did);
      status := DeviceStatus(hasActiveSession, lastActivityAt);
    }

    /** The first pass of the grouping: the status of each of the user's devices. */
    method CollectDeviceStatus(userId: Uuid) returns (statuses: map<Uuid, DeviceStatus>)
      requires Valid()
      ensures statuses.Keys == UserDevices(State(), userId)
      ensures Faithful(State(), statuses)
    {
      var mine := set k | k in devices && devices[k].userId == userId;
      var todo := mine;
      statuses := map[];
      while todo != {}
        invariant todo <= mine
        invariant statuses.Keys == mine - todo
        invariant Faithful(State(), statuses)
        decreases |todo|
      {
        var d :| d in todo;
        var status := ScanDeviceSessions(d);
        statuses := statuses[d := status];
        todo := todo - {d};
      }
    }

    /** The second pass of the grouping: each device to its bucket, in no particular order yet. */
    method Categorize(current: Option<Uuid>, statuses: map<Uuid, DeviceStatus>)
      returns (currentDevice: Option<DeviceView>, activeDevices: seq<DeviceView>, inactiveDevices: seq<DeviceView>)
      requires statuses.Keys <= devices.Keys
      ensures Categorized(devices, statuses, current, statuses.Keys, currentDevice, activeDevices, inactiveDevices)
    {
      currentDevice, activeDevices, inactiveDevices := None, [], [];
      var rest := statuses.Keys;
      ghost var done: set<Uuid> := {};
      while rest != {}
        invariant done + rest == statuses.Keys && done !! rest
        invariant Categorized(devices, statuses, current, done, currentDevice, activeDevices, inactiveDevices)
        decreases |rest|
      {
        var d :| d in rest;
        var status := statuses[d];
        var view := DeviceView(d, devices[d], Some(d) == current, status.lastActivityAt);
        CategorizedStep(devices, statuses, current, done, currentDevice, activeDevices, inactiveDevices, view);
        if Some(d) == current {
          currentDevice := Some(view);
        } else if status.hasActiveSession {
          activeDevices := activeDevices + [view];
        } else {
          inactiveDevices := inactiveDevices + [view];
        }
        rest := rest - {d};
        done := done + {d};
      }
    }

    /** getAllDevicesGrouped: the user's devices sorted into the current one, those with a live
        session and the rest, both lists most recent first. */
    method GetAllDevicesGrouped(userId: Uuid, sessionId: Option<Uuid>) returns (g: Grouped)
      requires Valid()
      ensures IsGrouping(State(), userId, sessionId, g)
    {
      var currentDeviceId: Option<Uuid> := None;
      if sessionId.Some? && sessionId.value in sessions {
        currentDeviceId := sessions[sessionId.value].device;
      }
      var statuses := CollectDeviceStatus(userId);
      var currentDevice, activeDevices, inactiveDevices := Categorize(currentDeviceId, statuses);
      var sortedActive := SortByActivity(activeDevices);
      var sortedInactive := SortByActivity(inactiveDevices);
      FaithfulBuckets(State(), currentDeviceId, statuses, Active);
      FaithfulBuckets(State(), currentDeviceId, statuses, Inactive);
      if currentDevice.Some? {
        FaithfulView(State(), currentDeviceId, statuses, currentDevice.value);
      }
      forall v | v in sortedActive ensures ViewOk(State(), currentDeviceId, v) {
        assert v in multiset(sortedActive);
        FaithfulView(State(), currentDeviceId, statuses, v);
      }
      forall v | v in sortedInactive ensures ViewOk(State(), currentDeviceId, v) {
        assert v in multiset(sortedInactive);
        FaithfulView(State(), currentDeviceId, statuses, v);
      }
      g := Grouped(currentDevice, sortedActive, sortedInactive);
    }
  }
}
