/** The session store of the authentication core, as pure transitions over the whole store.

    Every uuid the service draws (`uuidv4()` for jtis, the database's generated keys for new
    device and session rows) comes from one counter, `nextId`, so that a drawn identifier is
    provably different from every identifier already stored. The clock (`new Date()`) is the
    `now` parameter of each transition. */
module SessionModel {
  import opened Wrappers
  import opened Http

  /** An identifier handed out by the store (a uuid in the source). */
  type Uuid = nat

  /** A clock reading. */
  type Time = int

  const SessionNotFound := "Session not found"
  const RevokedRevalidation := "Cannot revalidate a revoked session"
  const InvalidRefreshToken := "Invalid refresh token"
  const DeviceNotFound := "Device not found"

  /** The descriptive columns of a device row; none of them drives any decision. */
  datatype DeviceAttributes = DeviceAttributes(
    name: Option<string>,
    kind: Option<string>,
    brand: Option<string>,
    model: Option<string>,
    appVersion: Option<string>,
    systemName: Option<string>,
    systemVersion: Option<string>,
    userAgent: Option<string>,
    isEmulator: Option<bool>,
    isTablet: Option<bool>)

  /** What a client reports about its device; its `deviceId` is mandatory. */
  datatype DeviceInfo = DeviceInfo(deviceId: string, attributes: DeviceAttributes, trusted: Option<bool>)

  /** A stored device row, owned by one user. */
  datatype Device = Device(userId: Uuid, deviceId: string, attributes: DeviceAttributes, trusted: bool)

  /** What a client reports about where it signs in from. */
  datatype LocationInfo = LocationInfo(
    country: Option<string>,
    region: Option<string>,
    city: Option<string>,
    postalCode: Option<string>,
    countryCode: Option<string>,
    formattedAddress: Option<string>,
    latitude: Option<real>,
    longitude: Option<real>)

  /** An append-only location observation attached to a device row. */
  datatype Location = Location(device: Uuid, info: LocationInfo)

  /** A session row. Every path that writes a session sets `lastSeenAt`, so it is never null here. */
  datatype Session = Session(
    userId: Uuid,
    device: Option<Uuid>,
    refreshTokenJti: Uuid,
    accessTokenJti: Uuid,
    lastSeenAt: Time,
    revokedAt: Option<Time>)

  /** The three tables the service writes, and the uuid source. */
  datatype Db = Db(
    sessions: map<Uuid, Session>,
    devices: map<Uuid, Device>,
    locations: seq<Location>,
    nextId: nat)

  /** What createSession, revalidateSession and validateAndRotateRefresh hand back. */
  datatype Issued = Issued(sessionId: Uuid, refreshJti: Uuid, accessJti: Uuid)

  predicate Matches(d: Device, userId: Uuid, deviceId: string) {
    d.userId == userId && d.deviceId == deviceId
  }

  /** At most one device row per (user, deviceId). */
  ghost predicate UniqueDevices(devices: map<Uuid, Device>) {
    forall k1, k2 :: k1 in devices && k2 in devices && Matches(devices[k1], devices[k2].userId, devices[k2].deviceId) ==> k1 == k2
  }

  ghost predicate SessionOk(db: Db, s: Session) {
    && s.refreshTokenJti < db.nextId
    && s.accessTokenJti < db.nextId
    && s.refreshTokenJti != s.accessTokenJti
    && (s.device.Some? ==> s.device.value in db.devices && db.devices[s.device.value].userId == s.userId)
  }

  /** The store invariant: every identifier was drawn from the counter, device rows are unique per
      (user, deviceId), and sessions and locations only point at existing devices of their user. */
  ghost predicate Valid(db: Db) {
    && (forall k :: k in db.sessions ==> k < db.nextId && SessionOk(db, db.sessions[k]))
    && (forall k :: k in db.devices ==> k < db.nextId)
    && UniqueDevices(db.devices)
    && (forall i :: 0 <= i < |db.locations| ==> db.locations[i].device in db.devices)
  }

  /** No stored session carries `j` as either of its jtis. */
  ghost predicate UnusedJti(db: Db, j: Uuid) {
    forall k :: k in db.sessions ==> db.sessions[k].refreshTokenJti != j && db.sessions[k].accessTokenJti != j
  }

  /** Every session but `sessionId` is stored exactly as in `db`. */
  ghost predicate OthersUnchanged(db: Db, db': Db, sessionId: Uuid) {
    forall k :: k in db.sessions && k != sessionId ==> k in db'.sessions && db'.sessions[k] == db.sessions[k]
  }

  /** The device lookup by (deviceId, user) of createSession and findActiveSessionByDevice. */
  function FindDevice(devices: map<Uuid, Device>, userId: Uuid, deviceId: string): (r: Option<Uuid>)
    requires UniqueDevices(devices)
    ensures r.Some? ==> r.value in devices && Matches(devices[r.value], userId, deviceId)
    ensures r.None? ==> forall k :: k in devices ==> !Matches(devices[k], userId, deviceId)
  {
    if exists k :: k in devices && Matches(devices[k], userId, deviceId) then
      var k :| k in devices && Matches(devices[k], userId, deviceId);
      Some(k)
    else
      None
  }

  /** The row inserted for a device the user has not registered before: the reported columns,
      and `trusted` false unless the client sent `trusted: true`. */
  function NewDevice(userId: Uuid, info: DeviceInfo): (d: Device)
    ensures Matches(d, userId, info.deviceId) && d.attributes == info.attributes
    ensures d.trusted <==> info.trusted == Some(true)
  {
    Device(userId, info.deviceId, info.attributes, info.trusted == Some(true))
  }

  /** The device half of createSession: reuse the user's row for this deviceId, or insert one. */
  function UpsertDevice(db: Db, userId: Uuid, info: DeviceInfo): (r: (Db, Uuid))
    requires Valid(db)
    ensures Valid(r.0)
    ensures r.0.sessions == db.sessions && r.0.locations == db.locations
    ensures r.1 in r.0.devices && Matches(r.0.devices[r.1], userId, info.deviceId)
    ensures forall k :: k in db.devices ==> k in r.0.devices && r.0.devices[k] == db.devices[k]
    ensures FindDevice(db.devices, userId, info.deviceId).Some? ==> r == (db, FindDevice(db.devices, userId, info.deviceId).value)
    ensures FindDevice(db.devices, userId, info.deviceId).None? ==>
              r.1 !in db.devices && r.0.devices[r.1] == NewDevice(userId, info) && r.0.devices.Keys == db.devices.Keys + {r.1}
  {
    match FindDevice(db.devices, userId, info.deviceId)
    case Some(k) => (db, k)
    case None =>
      var k := db.nextId;
      (db.(devices := db.devices[k := NewDevice(userId, info)], nextId := k + 1), k)
  }

  /** Appends a location observation for `device` when one is given. */
  function RecordLocation(db: Db, device: Uuid, locationInfo: Option<LocationInfo>): (r: Db)
    requires Valid(db) && device in db.devices
    ensures Valid(r)
    ensures r.sessions == db.sessions && r.devices == db.devices && r.nextId == db.nextId
    ensures r.locations == if locationInfo.Some? then db.locations + [Location(device, locationInfo.value)] else db.locations
  {
    match locationInfo
    case Some(info) => db.(locations := db.locations + [Location(device, info)])
    case None => db
  }

  /** createSession: optional device upsert and location, then a new active session whose
      two fresh jtis are the ones returned. */
  function CreateSession(db: Db, userId: Uuid, deviceInfo: Option<DeviceInfo>, locationInfo: Option<LocationInfo>, now: Time): (r: (Db, Issued))
    requires Valid(db)
    ensures Valid(r.0)
    ensures r.1.sessionId !in db.sessions && r.1.sessionId in r.0.sessions
    ensures r.0.sessions.Keys == db.sessions.Keys + {r.1.sessionId}
    ensures OthersUnchanged(db, r.0, r.1.sessionId)
    ensures UnusedJti(db, r.1.refreshJti) && UnusedJti(db, r.1.accessJti)
    ensures var s := r.0.sessions[r.1.sessionId];
      && s.userId == userId
      && s.refreshTokenJti == r.1.refreshJti && s.accessTokenJti == r.1.accessJti
      && s.lastSeenAt == now && s.revokedAt.None?
      && (deviceInfo.None? <==> s.device.None?)
      && (deviceInfo.Some? ==> Matches(r.0.devices[s.device.value], userId, deviceInfo.value.deviceId))
    ensures deviceInfo.None? ==> r.0.devices == db.devices && r.0.locations == db.locations
    ensures deviceInfo.Some? ==>
      r.0.locations == db.locations + (if locationInfo.Some? then [Location(r.0.sessions[r.1.sessionId].device.value, locationInfo.value)] else [])
  {
    var (db1, device) :=
      if deviceInfo.None? then (db, None)
      else
        var (withDevice, k) := UpsertDevice(db, userId, deviceInfo.value);
        (RecordLocation(withDevice, k, locationInfo), Some(k));
    var refreshJti := db1.nextId;
    var accessJti := db1.nextId + 1;
    var sessionId := db1.nextId + 2;
    var session := Session(userId, device, refreshJti, accessJti, now, None);
    (db1.(sessions := db1.sessions[sessionId := session], nextId := db1.nextId + 3), Issued(sessionId, refreshJti, accessJti))
  }

  /** revalidateSession: rotate both jtis of a live session on a repeat sign-in. */
  function Revalidate(db: Db, sessionId: Uuid, locationInfo: Option<LocationInfo>, now: Time): (r: (Db, Result<Issued, Exception>))
    requires Valid(db)
    ensures Valid(r.0)
    ensures sessionId !in db.sessions ==> r == (db, Err(NotFound(SessionNotFound)))
    ensures sessionId in db.sessions && db.sessions[sessionId].revokedAt.Some? ==>
              r == (db, Err(Unauthorized(RevokedRevalidation)))
    ensures r.0.sessions.Keys == db.sessions.Keys && r.0.devices == db.devices
    ensures r.1.Ok? <==> sessionId in db.sessions && db.sessions[sessionId].revokedAt.None?
    ensures r.1.Ok? ==>
      var old_ := db.sessions[sessionId];
      var s := r.0.sessions[sessionId];
      && r.1.value.sessionId == sessionId
      && OthersUnchanged(db, r.0, sessionId)
      && UnusedJti(db, r.1.value.refreshJti) && UnusedJti(db, r.1.value.accessJti)
      && s == old_.(refreshTokenJti := r.1.value.refreshJti, accessTokenJti := r.1.value.accessJti, lastSeenAt := now)
      && r.0.locations == db.locations +
           (if locationInfo.Some? && old_.device.Some? then [Location(old_.device.value, locationInfo.value)] else [])
  {
    if sessionId !in db.sessions then (db, Err(NotFound(SessionNotFound)))
    else
      var s := db.sessions[sessionId];
      if s.revokedAt.Some? then (db, Err(Unauthorized(RevokedRevalidation)))
      else
        var db1 := if s.device.Some? then RecordLocation(db, s.device.value, locationInfo) else db;
        var refreshJti := db1.nextId;
        var accessJti := db1.nextId + 1;
        var rotated := s.(refreshTokenJti := refreshJti, accessTokenJti := accessJti, lastSeenAt := now);
        (db1.(sessions := db1.sessions[sessionId := rotated], nextId := db1.nextId + 2),
         Ok(Issued(sessionId, refreshJti, accessJti)))
  }

  /** validateAndRotateRefresh: the refresh path. A missing session, a revoked one, or a presented
      jti that is not the stored refresh jti is refused; a session that exists is revoked on the way. */
  function ValidateAndRotateRefresh(db: Db, sessionId: Uuid, presentedJti: Uuid, now: Time): (r: (Db, Result<Issued, Exception>))
    requires Valid(db)
    ensures Valid(r.0)
    ensures r.0.sessions.Keys == db.sessions.Keys && r.0.devices == db.devices && r.0.locations == db.locations
    ensures OthersUnchanged(db, r.0, sessionId)
    ensures r.1.Ok? <==>
      sessionId in db.sessions && db.sessions[sessionId].revokedAt.None? && db.sessions[sessionId].refreshTokenJti == presentedJti
    ensures r.1.Err? ==> r.1.error == Unauthorized(InvalidRefreshToken)
    ensures sessionId !in db.sessions ==> r.0 == db
    ensures r.1.Err? && sessionId in db.sessions ==>
      r.0.sessions[sessionId] == db.sessions[sessionId].(revokedAt := Some(now))
    ensures r.1.Ok? ==>
      && r.1.value.sessionId == sessionId
      && UnusedJti(db, r.1.value.refreshJti) && UnusedJti(db, r.1.value.accessJti)
      && r.0.sessions[sessionId] ==
           db.sessions[sessionId].(refreshTokenJti := r.1.value.refreshJti, accessTokenJti := r.1.value.accessJti, lastSeenAt := now)
  {
    if sessionId !in db.sessions then (db, Err(Unauthorized(InvalidRefreshToken)))
    else
      var s := db.sessions[sessionId];
      if s.revokedAt.Some? || s.refreshTokenJti != presentedJti then
        (db.(sessions := db.sessions[sessionId := s.(revokedAt := Some(now))]), Err(Unauthorized(InvalidRefreshToken)))
      else
        var refreshJti := db.nextId;
        var accessJti := db.nextId + 1;
        var rotated := s.(refreshTokenJti := refreshJti, accessTokenJti := accessJti, lastSeenAt := now);
        (db.(sessions := db.sessions[sessionId := rotated], nextId := db.nextId + 2),
         Ok(Issued(sessionId, refreshJti, accessJti)))
  }

  /** revokeSession: stamp `revokedAt` (again, if it was already set); nothing else changes. */
  function RevokeSession(db: Db, sessionId: Uuid, now: Time): (r: (Db, Result<Session, Exception>))
    requires Valid(db)
    ensures Valid(r.0)
    ensures r.0.sessions.Keys == db.sessions.Keys && r.0.devices == db.devices && r.0.locations == db.locations
    ensures OthersUnchanged(db, r.0, sessionId)
    ensures sessionId !in db.sessions ==> r == (db, Err(NotFound(SessionNotFound)))
    ensures sessionId in db.sessions ==>
      && r.1 == Ok(r.0.sessions[sessionId])
      && r.0.sessions[sessionId] == db.sessions[sessionId].(revokedAt := Some(now))
  {
    if sessionId !in db.sessions then (db, Err(NotFound(SessionNotFound)))
    else
      var revoked := db.sessions[sessionId].(revokedAt := Some(now));
      (db.(sessions := db.sessions[sessionId := revoked]), Ok(revoked))
  }

  /** Every state-changing call of the service, with the inputs the source takes plus the clock. */
  datatype Op =
    | CreateOp(userId: Uuid, deviceInfo: Option<DeviceInfo>, locationInfo: Option<LocationInfo>, now: Time)
    | RevalidateOp(sessionId: Uuid, locationInfo: Option<LocationInfo>, now: Time)
    | RefreshOp(sessionId: Uuid, presentedJti: Uuid, now: Time)
    | RevokeOp(sessionId: Uuid, now: Time)

  function Apply(db: Db, op: Op): (r: Db)
    requires Valid(db)
    ensures Valid(r)
  {
    match op
    case CreateOp(u, d, l, t) => CreateSession(db, u, d, l, t).0
    case RevalidateOp(s, l, t) => Revalidate(db, s, l, t).0
    case RefreshOp(s, j, t) => ValidateAndRotateRefresh(db, s, j, t).0
    case RevokeOp(s, t) => RevokeSession(db, s, t).0
  }

  /** The store after a sequence of calls; the invariant holds throughout. */
  function Run(db: Db, ops: seq<Op>): (r: Db)
    requires Valid(db)
    ensures Valid(r)
    decreases |ops|
  {
    if ops == [] then db else Run(Apply(db, ops[0]), ops[1..])
  }

  /** One call never removes a session, never re-binds it to another user or device, and never
      clears `revokedAt`; on a revoked session it leaves both jtis as they were. */
  lemma ApplyKeepsSession(db: Db, op: Op, sessionId: Uuid)
    requires Valid(db) && sessionId in db.sessions
    ensures sessionId in Apply(db, op).sessions
    ensures var s, s' := db.sessions[sessionId], Apply(db, op).sessions[sessionId];
      && s'.userId == s.userId && s'.device == s.device
      && (s.revokedAt.Some? ==> s'.revokedAt.Some? && s'.refreshTokenJti == s.refreshTokenJti && s'.accessTokenJti == s.accessTokenJti)
  {
    match op
    case CreateOp(u, d, l, t) =>
    case RevalidateOp(s, l, t) =>
    case RefreshOp(s, j, t) =>
    case RevokeOp(s, t) =>
  }

  /** Revocation is terminal: whatever calls follow, a revoked session stays stored, stays revoked,
      keeps its owner and device, and its jtis never change again. */
  lemma {:induction false} RevocationIsTerminal(db: Db, ops: seq<Op>, sessionId: Uuid)
    requires Valid(db) && sessionId in db.sessions && db.sessions[sessionId].revokedAt.Some?
    ensures sessionId in Run(db, ops).sessions
    ensures var s, s' := db.sessions[sessionId], Run(db, ops).sessions[sessionId];
      && s'.revokedAt.Some? && s'.userId == s.userId && s'.device == s.device
      && s'.refreshTokenJti == s.refreshTokenJti && s'.accessTokenJti == s.accessTokenJti
    decreases |ops|
  {
    if ops != [] {
      ApplyKeepsSession(db, ops[0], sessionId);
      RevocationIsTerminal(Apply(db, ops[0]), ops[1..], sessionId);
    }
  }

  /** Sessions are never deleted by the service. */
  lemma {:induction false} SessionsPersist(db: Db, ops: seq<Op>)
    requires Valid(db)
    ensures db.sessions.Keys <= Run(db, ops).sessions.Keys
    decreases |ops|
  {
    if ops != [] {
      forall k | k in db.sessions ensures k in Apply(db, ops[0]).sessions {
        ApplyKeepsSession(db, ops[0], k);
      }
      SessionsPersist(Apply(db, ops[0]), ops[1..]);
    }
  }

  /** Once revoked, a session never again passes a refresh, whatever jti is presented. */
  lemma RevokedNeverRefreshes(db: Db, ops: seq<Op>, sessionId: Uuid, presentedJti: Uuid, now: Time)
    requires Valid(db) && sessionId in db.sessions && db.sessions[sessionId].revokedAt.Some?
    ensures ValidateAndRotateRefresh(Run(db, ops), sessionId, presentedJti, now).1 == Err(Unauthorized(InvalidRefreshToken))
  {
    RevocationIsTerminal(db, ops, sessionId);
  }

  /** Nor can it be revalidated by a repeat sign-in. */
  lemma RevokedNeverRevalidates(db: Db, ops: seq<Op>, sessionId: Uuid, locationInfo: Option<LocationInfo>, now: Time)
    requires Valid(db) && sessionId in db.sessions && db.sessions[sessionId].revokedAt.Some?
    ensures Revalidate(Run(db, ops), sessionId, locationInfo, now).1 == Err(Unauthorized(RevokedRevalidation))
  {
    RevocationIsTerminal(db, ops, sessionId);
  }

  /** A refresh jti is good for one rotation: presenting it a second time fails and revokes the session. */
  lemma ReplayAfterRotationRevokes(db: Db, sessionId: Uuid, jti: Uuid, t1: Time, t2: Time)
    requires Valid(db)
    requires ValidateAndRotateRefresh(db, sessionId, jti, t1).1.Ok?
    ensures var db1 := ValidateAndRotateRefresh(db, sessionId, jti, t1).0;
      var (db2, r2) := ValidateAndRotateRefresh(db1, sessionId, jti, t2);
      && r2 == Err(Unauthorized(InvalidRefreshToken))
      && db2.sessions[sessionId].revokedAt == Some(t2)
  {
    var db1 := ValidateAndRotateRefresh(db, sessionId, jti, t1).0;
    assert db.sessions[sessionId].refreshTokenJti == jti;
    assert db1.sessions[sessionId].refreshTokenJti != jti;
  }

  /** A wrong jti kills the session: afterwards even the jti that was current is refused. */
  lemma WrongJtiKillsSession(db: Db, sessionId: Uuid, wrong: Uuid, t1: Time, t2: Time)
    requires Valid(db) && sessionId in db.sessions
    requires wrong != db.sessions[sessionId].refreshTokenJti
    ensures var (db1, r1) := ValidateAndRotateRefresh(db, sessionId, wrong, t1);
      && r1 == Err(Unauthorized(InvalidRefreshToken))
      && ValidateAndRotateRefresh(db1, sessionId, db.sessions[sessionId].refreshTokenJti, t2).1.Err?
  {
  }

  /** A repeat sign-in keeps the session but retires its refresh jti: the old jti no longer refreshes. */
  lemma RevalidateRetiresOldRefreshJti(db: Db, sessionId: Uuid, locationInfo: Option<LocationInfo>, t1: Time, t2: Time)
    requires Valid(db)
    requires Revalidate(db, sessionId, locationInfo, t1).1.Ok?
    ensures var (db1, r1) := Revalidate(db, sessionId, locationInfo, t1);
      && r1.value.sessionId == sessionId
      && r1.value.refreshJti != db.sessions[sessionId].refreshTokenJti
      && r1.value.accessJti != db.sessions[sessionId].accessTokenJti
      && ValidateAndRotateRefresh(db1, sessionId, db.sessions[sessionId].refreshTokenJti, t2).1.Err?
      && ValidateAndRotateRefresh(db1, sessionId, r1.value.refreshJti, t2).1.Ok?
  {
    var (db1, r1) := Revalidate(db, sessionId, locationInfo, t1);
    assert UnusedJti(db, r1.value.refreshJti);
  }

  /** The jtis createSession returns are exactly the ones a refresh accepts for the new session. */
  lemma CreatedSessionRefreshes(db: Db, userId: Uuid, deviceInfo: Option<DeviceInfo>, locationInfo: Option<LocationInfo>, t1: Time, t2: Time, presented: Uuid)
    requires Valid(db)
    ensures var (db1, iss) := CreateSession(db, userId, deviceInfo, locationInfo, t1);
      ValidateAndRotateRefresh(db1, iss.sessionId, presented, t2).1.Ok? <==> presented == iss.refreshJti
  {
  }

  /** createSession keeps every device row already stored, and a session opened on a device the
      user registered before is bound to that row. */
  lemma CreateSessionKeepsDevices(db: Db, userId: Uuid, deviceInfo: Option<DeviceInfo>, locationInfo: Option<LocationInfo>, now: Time)
    requires Valid(db)
    ensures var (db1, iss) := CreateSession(db, userId, deviceInfo, locationInfo, now);
      && (forall k :: k in db.devices ==> k in db1.devices && db1.devices[k] == db.devices[k])
      && (deviceInfo.Some? && FindDevice(db.devices, userId, deviceInfo.value.deviceId).Some? ==>
            db1.sessions[iss.sessionId].device == FindDevice(db.devices, userId, deviceInfo.value.deviceId))
  {
    if deviceInfo.Some? {
      var (withDevice, k) := UpsertDevice(db, userId, deviceInfo.value);
      assert RecordLocation(withDevice, k, locationInfo).devices == withDevice.devices;
    }
  }
}
