/** What "list my devices" promises: every device of the user in exactly one of three buckets
    (the current request's device, devices with a live session, the rest), each carrying the most
    recent `lastSeenAt` of its sessions, and the two lists ordered most recent first with devices
    that never saw activity at the end. */
module DeviceGrouping {
  import opened Wrappers
  import opened SessionModel

  /** A device row as the grouping returns it, with the two fields it adds. */
  datatype DeviceView = DeviceView(id: Uuid, device: Device, isCurrentDevice: bool, lastActivityAt: Option<Time>)

  datatype Grouped = Grouped(currentDevice: Option<DeviceView>, activeDevices: seq<DeviceView>, inactiveDevices: seq<DeviceView>)

  datatype Bucket = Current | Active | Inactive

  /** The sessions relation of a device row. */
  function SessionsOf(db: Db, did: Uuid): set<Uuid> {
    set k | k in db.sessions && db.sessions[k].device == Some(did)
  }

  function UserDevices(db: Db, userId: Uuid): set<Uuid> {
    set k | k in db.devices && db.devices[k].userId == userId
  }

  /** The device of the request's session, when a session id is given and that session has one. */
  function CurrentDeviceId(db: Db, sessionId: Option<Uuid>): Option<Uuid> {
    if sessionId.Some? && sessionId.value in db.sessions then db.sessions[sessionId.value].device else None
  }

  ghost predicate HasActiveSession(db: Db, did: Uuid) {
    exists k :: k in SessionsOf(db, did) && db.sessions[k].revokedAt.None?
  }

  /** `t` is the greatest `lastSeenAt` over the sessions `ks`, and None exactly when `ks` is empty. */
  ghost predicate IsMaxOver(sessions: map<Uuid, Session>, ks: set<Uuid>, t: Option<Time>)
    requires ks <= sessions.Keys
  {
    match t
    case None => ks == {}
    case Some(x) =>
      && (exists k :: k in ks && sessions[k].lastSeenAt == x)
      && (forall k :: k in ks ==> sessions[k].lastSeenAt <= x)
  }

  ghost predicate IsLastActivity(db: Db, did: Uuid, t: Option<Time>) {
    IsMaxOver(db.sessions, SessionsOf(db, did), t)
  }

  ghost function BucketOf(db: Db, current: Option<Uuid>, did: Uuid): Bucket {
    if current == Some(did) then Current
    else if HasActiveSession(db, did) then Active
    else Inactive
  }

  ghost function BucketAmong(db: Db, current: Option<Uuid>, ds: set<Uuid>, b: Bucket): set<Uuid> {
    set d | d in ds && BucketOf(db, current, d) == b
  }

  /** A returned device is the stored row with the right flag and activity stamp. */
  ghost predicate ViewOk(db: Db, current: Option<Uuid>, v: DeviceView) {
    && v.id in db.devices
    && v.device == db.devices[v.id]
    && v.isCurrentDevice == (current == Some(v.id))
    && IsLastActivity(db, v.id, v.lastActivityAt)
  }

  /** The ids of a list of views, with multiplicity. */
  function IdBag(vs: seq<DeviceView>): multiset<Uuid> {
    if vs == [] then multiset{} else multiset{vs[0].id} + IdBag(vs[1..])
  }

  lemma {:induction false} IdBagAppend(vs: seq<DeviceView>, ws: seq<DeviceView>)
    ensures IdBag(vs + ws) == IdBag(vs) + IdBag(ws)
    decreases |vs|
  {
    if vs == [] {
      assert vs + ws == ws;
    } else {
      assert (vs + ws)[1..] == vs[1..] + ws;
      IdBagAppend(vs[1..], ws);
    }
  }

  /** The comparator handed to `sort` for both lists. */
  function Compare(a: DeviceView, b: DeviceView): (r: int)
    ensures r < 0 <==> a.lastActivityAt.Some? && (b.lastActivityAt.None? || b.lastActivityAt.value < a.lastActivityAt.value)
    ensures r == 0 <==> a.lastActivityAt.Some? && b.lastActivityAt == a.lastActivityAt
    ensures a.lastActivityAt.None? ==> r > 0
  {
    if a.lastActivityAt.None? then 1
    else if b.lastActivityAt.None? then -1
    else b.lastActivityAt.value - a.lastActivityAt.value
  }

  /** `a` may precede `b`: the comparator does not put it after `b`, or neither has any activity
      (the one pair on which the comparator answers 1 both ways). */
  predicate NotAfter(a: DeviceView, b: DeviceView) {
    Compare(a, b) <= 0 || (a.lastActivityAt.None? && b.lastActivityAt.None?)
  }

  lemma NotAfterTotal(a: DeviceView, b: DeviceView)
    ensures NotAfter(a, b) || NotAfter(b, a)
  {
  }

  predicate SortedByActivity(s: seq<DeviceView>) {
    forall i, j :: 0 <= i < j < |s| ==> NotAfter(s[i], s[j])
  }

  /** Most recent activity first, devices without any activity last. */
  lemma SortedMeansMostRecentFirst(s: seq<DeviceView>, i: nat, j: nat)
    requires SortedByActivity(s) && i < j < |s|
    ensures s[j].lastActivityAt.Some? ==> s[i].lastActivityAt.Some? && s[i].lastActivityAt.value >= s[j].lastActivityAt.value
    ensures s[i].lastActivityAt.None? ==> s[j].lastActivityAt.None?
  {
    assert NotAfter(s[i], s[j]);
  }

  lemma NotAfterTransitive(a: DeviceView, b: DeviceView, c: DeviceView)
    requires NotAfter(a, b) && NotAfter(b, c)
    ensures NotAfter(a, c)
  {
  }

  /** Stable insertion of one device into an ordered list. */
  function Insert(x: DeviceView, s: seq<DeviceView>): (r: seq<DeviceView>)
    ensures multiset(r) == multiset(s) + multiset{x}
    ensures IdBag(r) == IdBag(s) + multiset{x.id}
  {
    if s == [] || NotAfter(x, s[0]) then
      IdBagCons(x, s);
      [x] + s
    else
      InsertBehind(x, s, Insert(x, s[1..]))
  }

  /** The recursive case of Insert: `s[0]` stays in front of the insertion into the rest. */
  function InsertBehind(x: DeviceView, s: seq<DeviceView>, rest: seq<DeviceView>): (r: seq<DeviceView>)
    requires s != []
    requires multiset(rest) == multiset(s[1..]) + multiset{x}
    requires IdBag(rest) == IdBag(s[1..]) + multiset{x.id}
    ensures multiset(r) == multiset(s) + multiset{x}
    ensures IdBag(r) == IdBag(s) + multiset{x.id}
  {
    assert multiset([s[0]] + rest) == multiset(s) + multiset{x} by {
      assert s == [s[0]] + s[1..];
    }
    IdBagBehind(x, s, rest);
    [s[0]] + rest
  }

  lemma IdBagBehind(x: DeviceView, s: seq<DeviceView>, rest: seq<DeviceView>)
    requires s != [] && IdBag(rest) == IdBag(s[1..]) + multiset{x.id}
    ensures IdBag([s[0]] + rest) == IdBag(s) + multiset{x.id}
  {
    IdBagCons(s[0], rest);
  }

  lemma IdBagCons(v: DeviceView, vs: seq<DeviceView>)
    ensures IdBag([v] + vs) == multiset{v.id} + IdBag(vs)
  {
    assert ([v] + vs)[1..] == vs;
  }

  lemma {:induction false} InsertKeepsOrder(x: DeviceView, s: seq<DeviceView>)
    requires SortedByActivity(s)
    ensures SortedByActivity(Insert(x, s))
    decreases |s|
  {
    var r := Insert(x, s);
    if s == [] {
    } else if NotAfter(x, s[0]) {
      assert r == [x] + s;
      forall i, j | 0 <= i < j < |r| ensures NotAfter(r[i], r[j]) {
        if i == 0 && j > 1 {
          NotAfterTransitive(x, s[0], s[j - 1]);
        }
      }
    } else {
      var rest := Insert(x, s[1..]);
      InsertKeepsOrder(x, s[1..]);
      assert r == [s[0]] + rest;
      NotAfterTotal(x, s[0]);
      forall y | y in rest ensures NotAfter(s[0], y) {
        assert y in multiset(rest);
        assert y in multiset(s[1..]) || y == x;
        if y != x {
          var k :| 0 <= k < |s[1..]| && s[1..][k] == y;
          assert s[k + 1] == y;
        }
      }
      SortedCons(s[0], rest);
    }
  }

  /** A head that may precede every element of a sorted list keeps it sorted. */
  lemma SortedCons(h: DeviceView, rest: seq<DeviceView>)
    requires SortedByActivity(rest)
    requires forall y :: y in rest ==> NotAfter(h, y)
    ensures SortedByActivity([h] + rest)
  {
    var r := [h] + rest;
    forall i, j | 0 <= i < j < |r| ensures NotAfter(r[i], r[j]) {
      if i == 0 {
        assert r[j] == rest[j - 1];
        assert r[j] in rest;
      } else {
        assert r[i] == rest[i - 1] && r[j] == rest[j - 1];
      }
    }
  }

  /** The order `Array.prototype.sort` gives a list under `Compare`, as a stable insertion sort. */
  function SortByActivity(s: seq<DeviceView>): (r: seq<DeviceView>)
    ensures multiset(r) == multiset(s)
    ensures IdBag(r) == IdBag(s)
    ensures SortedByActivity(r)
  {
    if s == [] then []
    else
      assert s == [s[0]] + s[1..];
      var sortedTail := SortByActivity(s[1..]);
      InsertKeepsOrder(s[0], sortedTail);
      Insert(s[0], sortedTail)
  }

  /** Per-device status collected by the first pass of the grouping. */
  datatype DeviceStatus = DeviceStatus(hasActiveSession: bool, lastActivityAt: Option<Time>)

  /** The first pass got every device's status right. */
  ghost predicate Faithful(db: Db, statuses: map<Uuid, DeviceStatus>) {
    forall k :: k in statuses ==>
      && k in db.devices
      && statuses[k].hasActiveSession == HasActiveSession(db, k)
      && IsLastActivity(db, k, statuses[k].lastActivityAt)
  }

  /** The bucket the second pass picks for a device from its collected status. */
  function StatusBucket(current: Option<Uuid>, statuses: map<Uuid, DeviceStatus>, d: Uuid): Bucket
    requires d in statuses
  {
    if current == Some(d) then Current
    else if statuses[d].hasActiveSession then Active
    else Inactive
  }

  function StatusAmong(current: Option<Uuid>, statuses: map<Uuid, DeviceStatus>, ds: set<Uuid>, b: Bucket): set<Uuid> {
    set d | d in ds && d in statuses && StatusBucket(current, statuses, d) == b
  }

  /** A view built by the second pass from the stored row and the collected status. */
  predicate ViewFrom(devices: map<Uuid, Device>, statuses: map<Uuid, DeviceStatus>, current: Option<Uuid>, v: DeviceView) {
    && v.id in statuses
    && v.id in devices
    && v.device == devices[v.id]
    && v.isCurrentDevice == (current == Some(v.id))
    && v.lastActivityAt == statuses[v.id].lastActivityAt
  }

  /** The devices `done` have been put into their buckets, unordered. */
  ghost predicate Categorized(devices: map<Uuid, Device>, statuses: map<Uuid, DeviceStatus>, current: Option<Uuid>, done: set<Uuid>,
                              cur: Option<DeviceView>, act: seq<DeviceView>, inact: seq<DeviceView>) {
    && (cur.Some? <==> current.Some? && current.value in done)
    && (cur.Some? ==> cur.value.id == current.value && ViewFrom(devices, statuses, current, cur.value))
    && IdBag(act) == multiset(StatusAmong(current, statuses, done, Active))
    && IdBag(inact) == multiset(StatusAmong(current, statuses, done, Inactive))
    && (forall v :: v in act ==> ViewFrom(devices, statuses, current, v))
    && (forall v :: v in inact ==> ViewFrom(devices, statuses, current, v))
  }

  /** Adding one device to the devices considered adds it to its own bucket only. */
  lemma StatusAmongAdd(current: Option<Uuid>, statuses: map<Uuid, DeviceStatus>, ds: set<Uuid>, d: Uuid, b: Bucket)
    requires d !in ds && d in statuses
    ensures multiset(StatusAmong(current, statuses, ds + {d}, b)) ==
              multiset(StatusAmong(current, statuses, ds, b)) + (if StatusBucket(current, statuses, d) == b then multiset{d} else multiset{})
  {
    if StatusBucket(current, statuses, d) == b {
      assert StatusAmong(current, statuses, ds + {d}, b) == StatusAmong(current, statuses, ds, b) + {d};
    } else {
      assert StatusAmong(current, statuses, ds + {d}, b) == StatusAmong(current, statuses, ds, b);
    }
  }

  /** Putting one more device into its bucket keeps the categorisation exact. */
  lemma CategorizedStep(devices: map<Uuid, Device>, statuses: map<Uuid, DeviceStatus>, current: Option<Uuid>, done: set<Uuid>,
                        cur: Option<DeviceView>, act: seq<DeviceView>, inact: seq<DeviceView>, view: DeviceView)
    requires Categorized(devices, statuses, current, done, cur, act, inact)
    requires view.id !in done && ViewFrom(devices, statuses, current, view)
    ensures StatusBucket(current, statuses, view.id) == Current ==>
              Categorized(devices, statuses, current, done + {view.id}, Some(view), act, inact)
    ensures StatusBucket(current, statuses, view.id) == Active ==>
              Categorized(devices, statuses, current, done + {view.id}, cur, act + [view], inact)
    ensures StatusBucket(current, statuses, view.id) == Inactive ==>
              Categorized(devices, statuses, current, done + {view.id}, cur, act, inact + [view])
  {
    var d := view.id;
    var b := StatusBucket(current, statuses, d);
    StatusAmongAdd(current, statuses, done, d, Active);
    StatusAmongAdd(current, statuses, done, d, Inactive);
    if b == Active {
      AppendView(act, view);
    } else if b == Inactive {
      AppendView(inact, view);
    }
  }

  lemma AppendView(vs: seq<DeviceView>, view: DeviceView)
    ensures IdBag(vs + [view]) == IdBag(vs) + multiset{view.id}
    ensures forall v :: v in vs + [view] ==> v in vs || v == view
  {
    IdBagAppend(vs, [view]);
    assert IdBag([view]) == multiset{view.id} by {
      assert [view][1..] == [];
    }
  }

  /** With faithful statuses, the second pass's buckets are the promised ones. */
  lemma FaithfulBuckets(db: Db, current: Option<Uuid>, statuses: map<Uuid, DeviceStatus>, b: Bucket)
    requires Faithful(db, statuses)
    ensures StatusAmong(current, statuses, statuses.Keys, b) == BucketAmong(db, current, statuses.Keys, b)
  {
    forall d | d in statuses ensures StatusBucket(current, statuses, d) == BucketOf(db, current, d) {
    }
  }

  /** With faithful statuses, a view built by the second pass is the promised one. */
  lemma FaithfulView(db: Db, current: Option<Uuid>, statuses: map<Uuid, DeviceStatus>, v: DeviceView)
    requires Faithful(db, statuses) && ViewFrom(db.devices, statuses, current, v)
    ensures ViewOk(db, current, v)
  {
  }

  /** The result getAllDevicesGrouped promises for `userId`, given the request's session. */
  ghost predicate IsGrouping(db: Db, userId: Uuid, sessionId: Option<Uuid>, g: Grouped) {
    var current := CurrentDeviceId(db, sessionId);
    var mine := UserDevices(db, userId);
    && (g.currentDevice.Some? <==> current.Some? && current.value in mine)
    && (g.currentDevice.Some? ==> g.currentDevice.value.id == current.value && ViewOk(db, current, g.currentDevice.value))
    && IdBag(g.activeDevices) == multiset(BucketAmong(db, current, mine, Active))
    && IdBag(g.inactiveDevices) == multiset(BucketAmong(db, current, mine, Inactive))
    && (forall v :: v in g.activeDevices ==> ViewOk(db, current, v))
    && (forall v :: v in g.inactiveDevices ==> ViewOk(db, current, v))
    && SortedByActivity(g.activeDevices)
    && SortedByActivity(g.inactiveDevices)
  }

  /** Every device of the user lands in exactly one bucket, and only the user's devices are listed. */
  lemma GroupingPartitionsDevices(db: Db, userId: Uuid, sessionId: Option<Uuid>, g: Grouped, did: Uuid)
    requires IsGrouping(db, userId, sessionId, g)
    ensures var inCurrent := g.currentDevice.Some? && g.currentDevice.value.id == did;
      var inActive := IdBag(g.activeDevices)[did];
      var inInactive := IdBag(g.inactiveDevices)[did];
      if did in UserDevices(db, userId) then
        || (inCurrent && inActive == 0 && inInactive == 0)
        || (!inCurrent && inActive == 1 && inInactive == 0)
        || (!inCurrent && inActive == 0 && inInactive == 1)
      else !inCurrent && inActive == 0 && inInactive == 0
  {
    var current := CurrentDeviceId(db, sessionId);
    var mine := UserDevices(db, userId);
    if did in mine {
      var b := BucketOf(db, current, did);
      assert did in BucketAmong(db, current, mine, b);
    }
  }
}
