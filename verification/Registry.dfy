// The agent's device registry and session table (internal/agent/core.go).
//
// View is everything guarded by the core's mutex. Each function below is the
// effect of one locked section; class Core carries the same sections out on
// its fields. What the sections guarantee when they interleave is proved in
// AgentSystem.
module Registry {
  import opened Prelude
  import Names

  const MAX_SESSIONS: nat := 16

  // Identities are opaque: the code only stores and compares them.
  type Key = nat   // fingerprint key
  type Uuid = nat  // durable device identity
  type Sid = nat   // session id

  datatype Rec = Rec(
    uuid: Uuid, wordId: string, exposed: bool, allowControlLines: bool,
    assertLinesOnOpen: bool, monitored: bool, monitorBaud: int)

  /** What enumeration tells about a port, with the transport and confidence of its fingerprint. */
  datatype Hardware = Hardware(
    path: string, transport: string, vid: string, pid: string,
    serialNumber: string, product: string, confidence: string)

  const NO_HARDWARE := Hardware("", "", "", "", "", "", "")

  /** One enumerated port together with its fingerprint key. */
  datatype PortInfo = PortInfo(key: Key, hw: Hardware, isUsb: bool)

  datatype Dev = Dev(hw: Hardware, rec: Rec, online: bool, resets: nat)

  /** What a session reads from: a port it opened itself, or a monitor it attached to. */
  datatype Handle = Direct(port: nat) | Attached(monitor: nat)

  datatype Session = Session(uuid: Uuid, wordId: string, handle: Handle)

  datatype View = View(
    cfg: map<Key, Rec>,
    devices: map<Key, Dev>,
    sessions: map<Sid, Session>,
    claims: map<Uuid, Sid>,
    monitors: map<Uuid, nat>)

  ghost predicate DistinctIds(cfg: map<Key, Rec>) {
    && (forall k, l | k in cfg && l in cfg && cfg[k].uuid == cfg[l].uuid :: k == l)
    && (forall k, l | k in cfg && l in cfg && cfg[k].wordId == cfg[l].wordId :: k == l)
  }

  /** Registry invariant: live entries mirror their durable record, ids are unique. */
  ghost predicate WellFormed(v: View) {
    && DistinctIds(v.cfg)
    && (forall k | k in v.devices :: k in v.cfg && v.devices[k].rec == v.cfg[k])
  }

  function WordsOf(cfg: map<Key, Rec>): set<string> { set k | k in cfg :: cfg[k].wordId }

  function UuidsOf(cfg: map<Key, Rec>): set<Uuid> { set k | k in cfg :: cfg[k].uuid }

  // ---- Lookup ----

  ghost function KeyOf(cfg: map<Key, Rec>, u: Uuid): (r: Option<Key>)
    ensures r.Some? ==> r.value in cfg && cfg[r.value].uuid == u
    ensures r.None? ==> u !in UuidsOf(cfg)
  {
    if k :| k in cfg && cfg[k].uuid == u then Some(k) else None
  }

  ghost function KeyNamed(v: View, wordId: string): (r: Option<Key>)
    ensures r.Some? ==> r.value in v.devices && v.devices[r.value].rec.wordId == wordId
    ensures r.None? ==> forall k | k in v.devices :: v.devices[k].rec.wordId != wordId
  {
    if k :| k in v.devices && v.devices[k].rec.wordId == wordId then Some(k) else None
  }

  ghost predicate Exposed(v: View, u: Uuid) {
    exists k :: k in v.devices && v.devices[k].rec.uuid == u && v.devices[k].rec.exposed
  }

  ghost predicate Online(v: View, u: Uuid) {
    exists k :: k in v.devices && v.devices[k].rec.uuid == u && v.devices[k].online
  }

  /** byUUIDLocked: a device known only from the config gains an offline placeholder. */
  ghost function WithDevice(v: View, u: Uuid): View {
    match KeyOf(v.cfg, u)
    case None => v
    case Some(k) =>
      if k in v.devices then v else v.(devices := v.devices[k := Dev(NO_HARDWARE, v.cfg[k], false, 0)])
  }

  // ---- Record updates ----

  datatype Edit =
    | SetExposed(on: bool)
    | SetAssertLines(on: bool)
    | SetMonitored(on: bool, baud: int)
    | SetControlLines(on: bool)

  function ApplyEdit(r: Rec, e: Edit): Rec {
    match e
    case SetExposed(on) => r.(exposed := on)
    case SetAssertLines(on) => r.(assertLinesOnOpen := on)
    case SetMonitored(on, baud) =>
      if baud > 0 then r.(monitored := on, monitorBaud := baud) else r.(monitored := on)
    case SetControlLines(on) => r.(allowControlLines := on)
  }

  ghost function PutRec(v: View, k: Key, r: Rec): View
    requires k in v.devices
  {
    v.(cfg := v.cfg[k := r], devices := v.devices[k := v.devices[k].(rec := r)])
  }

  /** Whether or not saving succeeds, memory keeps the edit. */
  ghost function UpdateRec(v: View, u: Uuid, e: Edit): View {
    match KeyOf(v.cfg, u)
    case None => v
    case Some(k) => PutRec(WithDevice(v, u), k, ApplyEdit(v.cfg[k], e))
  }

  ghost function Rename(v: View, w: Names.Words, u: Uuid, draws: Names.Draws): View
    requires w.WellFormed()
  {
    match (KeyOf(v.cfg, u), Names.Generated(w, draws, WordsOf(v.cfg)))
    case (Some(k), Some(id)) => PutRec(WithDevice(v, u), k, v.cfg[k].(wordId := id))
    case _ => WithDevice(v, u)
  }

  // ---- Opening and closing sessions ----

  datatype ClaimOutcome =
    | UnknownDevice
    | DeviceOffline
    | DeviceBusy(holder: Sid)
    | SessionLimit
    | NeedsGrant
    | Claimed(uuid: Uuid, path: string, assertLines: bool)

  /** The control-line wishes of a caller; None leaves a line to the device's policy. */
  datatype Lines = Lines(dtr: Option<bool>, rts: Option<bool>) {
    predicate WantsHigh() { dtr == Some(true) || rts == Some(true) }
    predicate WantsLow() { dtr == Some(false) || rts == Some(false) }
  }

  function AssertLines(r: Rec, lines: Lines): bool {
    if lines.WantsHigh() then true else if lines.WantsLow() then false else r.assertLinesOnOpen
  }

  ghost function ClaimOutcomeOf(v: View, wordId: string, lines: Lines): ClaimOutcome {
    match KeyNamed(v, wordId)
    case None => UnknownDevice
    case Some(k) =>
      var d := v.devices[k];
      if !d.rec.exposed then UnknownDevice
      else if !d.online then DeviceOffline
      else if d.rec.uuid in v.claims then DeviceBusy(v.claims[d.rec.uuid])
      else if |v.sessions| >= MAX_SESSIONS then SessionLimit
      else if lines.WantsHigh() && !d.rec.allowControlLines then NeedsGrant
      else Claimed(d.rec.uuid, d.hw.path, AssertLines(d.rec, lines))
  }

  ghost function Claim(v: View, wordId: string, lines: Lines, sid: Sid): View {
    match ClaimOutcomeOf(v, wordId, lines)
    case Claimed(u, _, _) => v.(claims := v.claims[u := sid])
    case _ => v
  }

  function DropClaim(v: View, u: Uuid): View { v.(claims := v.claims - {u}) }

  predicate StillOurs(v: View, u: Uuid, sid: Sid) { u in v.claims && v.claims[u] == sid }

  ghost predicate RegisterSucceeds(v: View, sid: Sid, u: Uuid) { StillOurs(v, u, sid) && Exposed(v, u) }

  ghost function Register(v: View, sid: Sid, s: Session): View {
    if RegisterSucceeds(v, sid, s.uuid) then v.(sessions := v.sessions[sid := s])
    else if StillOurs(v, s.uuid, sid) then DropClaim(v, s.uuid)
    else v
  }

  function CloseSession(v: View, sid: Sid): View {
    if sid in v.sessions
    then DropClaim(v, v.sessions[sid].uuid).(sessions := v.sessions - {sid})
    else v
  }

  // ---- Monitors ----

  ghost function StartPath(v: View, u: Uuid): Option<string> {
    if u in v.monitors then None
    else match KeyOf(v.cfg, u)
      case Some(k) =>
        if k in v.devices && v.devices[k].online then Some(v.devices[k].hw.path) else None
      case None => None
  }

  ghost function StartCheck(v: View, u: Uuid): View {
    if u in v.monitors then v else WithDevice(v, u)
  }

  function StartCommit(v: View, u: Uuid, m: nat): View {
    if u in v.monitors then v else v.(monitors := v.monitors[u := m])
  }

  ghost function StopMonitor(v: View, u: Uuid): View {
    WithDevice(v, u).(monitors := v.monitors - {u})
  }

  // ---- Rescan ----

  /** What identity generation would yield for a port seen for the first time. */
  datatype Identity = Identity(uuid: Uuid, draws: Names.Draws)

  datatype ScanOutcome =
    | NamesFailed
    | SaveFailed
    | Scanned(orphaned: set<Sid>, stopMonitors: set<Uuid>, startMonitors: set<Uuid>)

  function ReconcilePort(v: View, w: Names.Words, p: PortInfo, f: Identity): Option<View>
    requires w.WellFormed()
  {
    var id := Names.Generated(w, f.draws, WordsOf(v.cfg));
    if p.key !in v.cfg && id.None? then None
    else
      var rec := if p.key in v.cfg then v.cfg[p.key] else Rec(f.uuid, id.value, false, false, false, false, 0);
      var resets :=
        if p.key !in v.devices then 0
        else v.devices[p.key].resets + if !v.devices[p.key].online && p.isUsb then 1 else 0;
      Some(v.(cfg := v.cfg[p.key := rec], devices := v.devices[p.key := Dev(p.hw, rec, true, resets)]))
  }

  /** The registry after the first n ports; false when name generation stopped the scan. */
  function Reconcile(v: View, w: Names.Words, ports: seq<PortInfo>, minted: seq<Identity>, n: nat): (View, bool)
    requires w.WellFormed() && |minted| == |ports| && n <= |ports|
  {
    if n == 0 then (v, true)
    else
      var (u, ok) := Reconcile(v, w, ports, minted, n - 1);
      if !ok then (u, false)
      else match ReconcilePort(u, w, ports[n - 1], minted[n - 1])
        case None => (u, false)
        case Some(x) => (x, true)
  }

  function PresentKeys(ports: seq<PortInfo>): set<Key> { set p | p in ports :: p.key }

  lemma PresentNone()
    ensures PresentKeys([]) == {}
  {
  }

  lemma PresentNext(ports: seq<PortInfo>, n: nat)
    requires n < |ports|
    ensures PresentKeys(ports[..n + 1]) == PresentKeys(ports[..n]) + {ports[n].key}
  {
    assert ports[..n + 1] == ports[..n] + [ports[n]];
  }

  function MarkAbsent(v: View, present: set<Key>): View {
    v.(devices := map k | k in v.devices ::
         if k in present then v.devices[k] else v.devices[k].(online := false))
  }

  // The uuids a sweep has to act on, leaving out registry keys it has yet to visit.

  function ClaimedAbsent(v: View, present: set<Key>, todo: set<Key>): set<Uuid> {
    set k | k in v.devices && k !in todo && k !in present && v.devices[k].rec.uuid in v.claims :: v.devices[k].rec.uuid
  }

  function MonitoredAbsent(v: View, present: set<Key>, todo: set<Key>): set<Uuid> {
    set k | k in v.devices && k !in todo && k !in present && v.devices[k].rec.uuid in v.monitors ::
      v.devices[k].rec.uuid
  }

  function UnmonitoredPresent(v: View, present: set<Key>, todo: set<Key>): set<Uuid> {
    set k | k in v.devices && k !in todo && k in present && v.devices[k].rec.monitored
            && v.devices[k].rec.uuid !in v.monitors :: v.devices[k].rec.uuid
  }

  function HoldersOf(v: View, uuids: set<Uuid>): set<Sid> {
    set u | u in uuids && u in v.claims :: v.claims[u]
  }

  function Followups(v: View, present: set<Key>): ScanOutcome {
    Scanned(HoldersOf(v, ClaimedAbsent(v, present, {})), MonitoredAbsent(v, present, {}),
            UnmonitoredPresent(v, present, {}))
  }

  /** What one registry key contributes to the follow-up work. */
  function FollowupAt(v: View, present: set<Key>, k: Key): (set<Sid>, set<Uuid>, set<Uuid>)
    requires k in v.devices
  {
    var r := v.devices[k].rec;
    (if k !in present && r.uuid in v.claims then {v.claims[r.uuid]} else {},
     if k !in present && r.uuid in v.monitors then {r.uuid} else {},
     if k in present && r.monitored && r.uuid !in v.monitors then {r.uuid} else {})
  }

  lemma SweepStep(v: View, present: set<Key>, todo: set<Key>, k: Key)
    requires k in v.devices && k in todo
    ensures HoldersOf(v, ClaimedAbsent(v, present, todo - {k})) ==
            HoldersOf(v, ClaimedAbsent(v, present, todo)) + FollowupAt(v, present, k).0
    ensures MonitoredAbsent(v, present, todo - {k}) == MonitoredAbsent(v, present, todo) + FollowupAt(v, present, k).1
    ensures UnmonitoredPresent(v, present, todo - {k}) ==
            UnmonitoredPresent(v, present, todo) + FollowupAt(v, present, k).2
  {
    var u := v.devices[k].rec.uuid;
    assert ClaimedAbsent(v, present, todo - {k}) == ClaimedAbsent(v, present, todo) +
             (if k !in present && u in v.claims then {u} else {});
  }

  lemma SweepStart(v: View, present: set<Key>)
    ensures HoldersOf(v, ClaimedAbsent(v, present, v.devices.Keys)) == {}
    ensures MonitoredAbsent(v, present, v.devices.Keys) == {} && UnmonitoredPresent(v, present, v.devices.Keys) == {}
  {
  }

  function Scan(v: View, w: Names.Words, ports: seq<PortInfo>, minted: seq<Identity>, saveOk: bool): (View, ScanOutcome)
    requires w.WellFormed() && |minted| == |ports|
  {
    var (u, ok) := Reconcile(v, w, ports, minted, |ports|);
    if !ok then (u, NamesFailed)
    else
      var after := MarkAbsent(u, PresentKeys(ports));
      if after.cfg.Keys != v.cfg.Keys && !saveOk then (after, SaveFailed)
      else (after, Followups(u, PresentKeys(ports)))
  }

  lemma ClaimCanRegister(v: View, wordId: string, lines: Lines, sid: Sid)
    requires ClaimOutcomeOf(v, wordId, lines).Claimed?
    ensures var u := ClaimOutcomeOf(v, wordId, lines).uuid;
            u !in v.claims && RegisterSucceeds(Claim(v, wordId, lines, sid), sid, u)
  {
    var k := KeyNamed(v, wordId).value;
    assert v.devices[k].rec.exposed;
  }

  /** The registry as one without hidden devices would have it. */
  function WithoutHidden(v: View): View {
    v.(devices := map k | k in v.devices && v.devices[k].rec.exposed :: v.devices[k])
  }

  /** Whether a hidden device exists makes no difference to what an open answers. */
  lemma HiddenDevicesAreUnknown(v: View, wordId: string, lines: Lines)
    requires WellFormed(v)
    ensures ClaimOutcomeOf(v, wordId, lines) == ClaimOutcomeOf(WithoutHidden(v), wordId, lines)
  {
    var seen := WithoutHidden(v);
    var a, b := KeyNamed(v, wordId), KeyNamed(seen, wordId);
    if a.Some? && v.devices[a.value].rec.exposed { assert a.value in seen.devices; }
    if b.Some? { assert b.value in v.devices; }
  }

  /** The exposed device with that handle. */
  ghost predicate Offered(v: View, k: Key, wordId: string) {
    k in v.devices && v.devices[k].rec.wordId == wordId && v.devices[k].rec.exposed
  }

  lemma OfferedIsNamed(v: View, k: Key, wordId: string)
    requires WellFormed(v) && Offered(v, k, wordId)
    ensures KeyNamed(v, wordId) == Some(k)
  {
    var other := KeyNamed(v, wordId).value;
    assert v.cfg[other].wordId == v.cfg[k].wordId;
  }

  /** An open is granted exactly when an exposed device with that handle is online and unclaimed, there
      is room for a session, and no line is asked high without the grant; and then for that device, on
      the port it was last seen on. */
  lemma ClaimSucceedsIff(v: View, wordId: string, lines: Lines)
    requires WellFormed(v)
    ensures ClaimOutcomeOf(v, wordId, lines).Claimed? <==>
              exists k :: Offered(v, k, wordId) && v.devices[k].online && v.devices[k].rec.uuid !in v.claims
                          && |v.sessions| < MAX_SESSIONS && (lines.WantsHigh() ==> v.devices[k].rec.allowControlLines)
    ensures forall k | Offered(v, k, wordId) && ClaimOutcomeOf(v, wordId, lines).Claimed? ::
              var c := ClaimOutcomeOf(v, wordId, lines);
              c.uuid == v.devices[k].rec.uuid && c.path == v.devices[k].hw.path
  {
    forall k: Key | Offered(v, k, wordId) ensures KeyNamed(v, wordId) == Some(k) { OfferedIsNamed(v, k, wordId); }
    var named := KeyNamed(v, wordId);
    if named.Some? { assert v.devices[named.value].rec.exposed ==> Offered(v, named.value, wordId); }
  }

  /** Why an open is refused: each answer exactly when it is true and no earlier one is. */
  lemma RefusalsAreExact(v: View, wordId: string, lines: Lines)
    requires WellFormed(v)
    ensures var c := ClaimOutcomeOf(v, wordId, lines);
            && (c.UnknownDevice? <==> forall k :: !Offered(v, k, wordId))
            && forall k | Offered(v, k, wordId) ::
                 var d := v.devices[k];
                 && (c.DeviceOffline? <==> !d.online)
                 && (forall sid :: c == DeviceBusy(sid) <==> d.online && StillOurs(v, d.rec.uuid, sid))
                 && (c.SessionLimit? <==> d.online && d.rec.uuid !in v.claims && |v.sessions| >= MAX_SESSIONS)
                 && (c.NeedsGrant? <==> d.online && d.rec.uuid !in v.claims && |v.sessions| < MAX_SESSIONS
                                        && lines.WantsHigh() && !d.rec.allowControlLines)
  {
    forall k: Key | Offered(v, k, wordId) ensures KeyNamed(v, wordId) == Some(k) { OfferedIsNamed(v, k, wordId); }
    var named := KeyNamed(v, wordId);
    if named.Some? { assert v.devices[named.value].rec.exposed ==> Offered(v, named.value, wordId); }
  }

  /** A monitor is started exactly on a device that is online and has none, on the port the device was
      last seen on. */
  lemma StartsIff(v: View, u: Uuid, path: string)
    requires WellFormed(v)
    ensures StartPath(v, u) == Some(path) <==>
              && u !in v.monitors
              && exists k :: k in v.devices && v.devices[k].rec.uuid == u
                             && v.devices[k].online && v.devices[k].hw.path == path
  {
    forall k | k in v.devices && v.devices[k].rec.uuid == u ensures KeyOf(v.cfg, u) == Some(k) {
      assert v.cfg[k].uuid == u;
    }
  }

  datatype OpenResponse = Opened(sid: Sid, handle: Handle) | Denied(why: ClaimOutcome) | OpenFailed | GivenUp

  datatype Announced = Announced(
    wordId: string, uuid: Uuid, online: bool, busy: bool, hw: Hardware,
    controlLines: bool, assertLines: bool, monitored: bool, portHeld: bool, resets: nat)

  function Announce(d: Dev, busy: bool, portHeld: bool): Announced {
    Announced(d.rec.wordId, d.rec.uuid, d.online, busy, d.hw,
              d.rec.allowControlLines, d.rec.assertLinesOnOpen, d.rec.monitored, portHeld, d.resets)
  }

  ghost function AnnouncedOf(v: View, k: Key): Announced
    requires k in v.devices
  {
    var d := v.devices[k];
    Announce(d, d.rec.uuid in v.claims, d.rec.uuid in v.monitors)
  }

  /** Exactly the exposed devices, ordered by name. */
  ghost predicate ListsExposed(v: View, out: seq<Announced>) {
    && Ordered(out)
    && (forall d :: d in out <==> exists k :: k in v.devices && v.devices[k].rec.exposed && d == AnnouncedOf(v, k))
  }

  /** The order of strings. */
  predicate Before(a: string, b: string) {
    b != "" && (a == "" || a[0] < b[0] || (a[0] == b[0] && Before(a[1..], b[1..])))
  }

  lemma {:induction false} BeforeIsTotal(a: string, b: string)
    ensures a != b ==> Before(a, b) || Before(b, a)
    ensures !(Before(a, b) && Before(b, a))
  {
    if a != "" && b != "" && a[0] == b[0] {
      BeforeIsTotal(a[1..], b[1..]);
      if a[1..] == b[1..] { assert a == [a[0]] + a[1..] == [b[0]] + b[1..] == b; }
    }
  }

  lemma {:induction false} BeforeIsTransitive(a: string, b: string, c: string)
    requires Before(a, b) && Before(b, c)
    ensures Before(a, c)
  {
    if a != "" && a[0] == b[0] == c[0] { BeforeIsTransitive(a[1..], b[1..], c[1..]); }
  }

  /** a and b agree up to n, and there a ends or has the smaller character. */
  predicate FirstDiffers(a: string, b: string, n: nat) {
    && n <= |a| && n < |b| && a[..n] == b[..n] && (n == |a| || a[n] < b[n])
  }

  lemma SharedStart(a: string, b: string, n: nat)
    requires FirstDiffers(a, b, n) && n > 0
    ensures a[0] == b[0]
  {
    assert a[0] == a[..n][0] == b[..n][0] == b[0];
  }

  /** Names are ordered as a dictionary does. */
  lemma {:induction false} BeforeIff(a: string, b: string)
    ensures Before(a, b) <==> exists n: nat :: FirstDiffers(a, b, n)
  {
    if a != "" && b != "" && a[0] == b[0] {
      BeforeIff(a[1..], b[1..]);
      assert a == [a[0]] + a[1..] && b == [b[0]] + b[1..];
      if n: nat :| FirstDiffers(a[1..], b[1..], n) {
        assert a[..n + 1] == [a[0]] + a[1..][..n] && b[..n + 1] == [b[0]] + b[1..][..n];
        assert FirstDiffers(a, b, n + 1);
      }
      if n: nat :| FirstDiffers(a, b, n) {
        assert n > 0;
        assert a[1..][..n - 1] == a[..n][1..] && b[1..][..n - 1] == b[..n][1..];
        assert FirstDiffers(a[1..], b[1..], n - 1);
      }
    } else if Before(a, b) {
      assert FirstDiffers(a, b, 0);
    } else if n: nat :| FirstDiffers(a, b, n) {
      if n > 0 { SharedStart(a, b, n); }
    }
  }

  predicate Ordered(s: seq<Announced>) {
    forall i, j | 0 <= i < j < |s| :: Before(s[i].wordId, s[j].wordId)
  }

  predicate DistinctNames(s: seq<Announced>) {
    forall i, j | 0 <= i < j < |s| :: s[i].wordId != s[j].wordId
  }

  function Insert(x: Announced, s: seq<Announced>): seq<Announced> {
    if s == [] then [x]
    else if Before(x.wordId, s[0].wordId) then [x] + s
    else [s[0]] + Insert(x, s[1..])
  }

  lemma {:induction false} InsertOrders(x: Announced, s: seq<Announced>)
    requires Ordered(s) && forall d | d in s :: d.wordId != x.wordId
    ensures Ordered(Insert(x, s)) && forall d :: d in Insert(x, s) <==> d == x || d in s
  {
    if s != [] {
      var rest := s[1..];
      assert s == [s[0]] + rest;
      if Before(x.wordId, s[0].wordId) {
        forall j | 0 <= j < |s| ensures Before(x.wordId, s[j].wordId) {
          if j > 0 { BeforeIsTransitive(x.wordId, s[0].wordId, s[j].wordId); }
        }
      } else {
        InsertOrders(x, rest);
        BeforeIsTotal(x.wordId, s[0].wordId);
        assert s[0] in s;
        forall d | d in Insert(x, rest) ensures Before(s[0].wordId, d.wordId) {
          if d != x { var j :| 0 <= j < |rest| && rest[j] == d; assert s[j + 1] == d; }
        }
        hide Before;
        var t := Insert(x, rest);
        forall i, j | 0 <= i < j < |t| + 1 ensures Before(([s[0]] + t)[i].wordId, ([s[0]] + t)[j].wordId) {
          assert t[j - 1] in t;
        }
      }
    }
  }

  /** Stands for the library's sort by name. */
  method SortByName(s: seq<Announced>) returns (out: seq<Announced>)
    requires DistinctNames(s)
    ensures Ordered(out) && forall d :: d in out <==> d in s
  {
    out := [];
    for n := 0 to |s|
      invariant Ordered(out) && forall d :: d in out <==> d in s[..n]
    {
      assert s[..n + 1] == s[..n] + [s[n]];
      InsertOrders(s[n], out);
      out := Insert(s[n], out);
    }
    assert s[..|s|] == s;
  }

  /** There is only one way to order a set of devices, so no trace of the map's order is left. */
  lemma {:induction false} OrderedIsUnique(a: seq<Announced>, b: seq<Announced>)
    requires Ordered(a) && Ordered(b) && forall d :: d in a <==> d in b
    ensures a == b
  {
    FirstIsMember(b);
    if a != [] {
      assert a[0] in a;
      var j :| 0 <= j < |b| && b[j] == a[0];
      assert b[0] in b;
      var i :| 0 <= i < |a| && a[i] == b[0];
      BeforeIsTotal(a[0].wordId, b[0].wordId);
      assert i == 0 && j == 0;
      forall d ensures d in a[1..] <==> d in b[1..] {
        TailOf(a, d);
        TailOf(b, d);
      }
      hide Before;
      OrderedIsUnique(a[1..], b[1..]);
      assert a == [a[0]] + a[1..] && b == [b[0]] + b[1..];
    }
  }

  lemma FirstIsMember(b: seq<Announced>)
    ensures b != [] ==> b[0] in b
  {
  }

  lemma TailOf(a: seq<Announced>, d: Announced)
    requires Ordered(a) && a != []
    ensures d in a[1..] <==> d in a && d != a[0]
  {
    BeforeIsTotal(a[0].wordId, a[0].wordId);
    assert a == [a[0]] + a[1..];
    if d in a[1..] {
      var i :| 0 <= i < |a[1..]| && a[1..][i] == d;
      assert a[i + 1] == d;
    }
  }

  // ---- The core object ----

  class Core {
    var cfg: map<Key, Rec>
    var devices: map<Key, Dev>
    var sessions: map<Sid, Session>
    var claims: map<Uuid, Sid>
    var monitors: map<Uuid, nat>

    ghost function Snapshot(): View
      reads this
    {
      View(cfg, devices, sessions, claims, monitors)
    }

    ghost predicate Valid()
      reads this
    {
      WellFormed(Snapshot())
    }

    constructor (stored: map<Key, Rec>)
      requires DistinctIds(stored)
      ensures Valid() && Snapshot() == View(stored, map[], map[], map[], map[])
    {
      cfg, devices, sessions, claims, monitors := stored, map[], map[], map[], map[];
    }

    method ByUuidLocked(u: Uuid) returns (key: Option<Key>)
      requires Valid()
      modifies this`devices
      ensures Valid() && Snapshot() == WithDevice(old(Snapshot()), u)
      ensures key == KeyOf(cfg, u)
      ensures key.Some? ==> key.value in devices
    {
      var todo := devices.Keys;
      while todo != {}
        invariant todo <= devices.Keys
        invariant forall k | k in devices.Keys - todo :: devices[k].rec.uuid != u
      {
        var k :| k in todo;
        if devices[k].rec.uuid == u { return Some(k); }
        todo := todo - {k};
      }
      var known := cfg.Keys;
      while known != {}
        invariant known <= cfg.Keys && unchanged(this)
        invariant forall k | k in cfg.Keys - known :: cfg[k].uuid != u
      {
        var k :| k in known;
        if cfg[k].uuid == u {
          devices := devices[k := Dev(NO_HARDWARE, cfg[k], false, 0)];
          return Some(k);
        }
        known := known - {k};
      }
      return None;
    }

    method UpdateRecord(u: Uuid, e: Edit, saveOk: bool) returns (ok: bool)
      requires Valid()
      modifies this
      ensures Snapshot() == UpdateRec(old(Snapshot()), u, e)
      ensures ok <==> saveOk && KeyOf(old(cfg), u).Some?
    {
      var key := ByUuidLocked(u);
      if key.None? { return false; }
      var rec := ApplyEdit(cfg[key.value], e);
      cfg := cfg[key.value := rec];
      devices := devices[key.value := devices[key.value].(rec := rec)];
      return saveOk;
    }

    method RegenerateName(w: Names.Words, u: Uuid, draws: Names.Draws, saveOk: bool) returns (ok: bool)
      requires Valid() && w.WellFormed()
      modifies this
      ensures Snapshot() == Rename(old(Snapshot()), w, u, draws)
      ensures ok <==> saveOk && KeyOf(old(cfg), u).Some? && Names.Generated(w, draws, WordsOf(old(cfg))).Some?
    {
      var key := ByUuidLocked(u);
      if key.None? { return false; }
      var id := Names.Generate(w, draws, WordsOf(cfg));
      if id.None? { return false; }
      var rec := cfg[key.value].(wordId := id.value);
      cfg := cfg[key.value := rec];
      devices := devices[key.value := devices[key.value].(rec := rec)];
      return saveOk;
    }

    /** First locked section of OpenSession. */
    method ClaimDevice(wordId: string, lines: Lines, sid: Sid) returns (r: ClaimOutcome)
      requires Valid()
      modifies this`claims
      ensures r == ClaimOutcomeOf(old(Snapshot()), wordId, lines)
      ensures Snapshot() == Claim(old(Snapshot()), wordId, lines, sid)
    {
      var todo := devices.Keys;
      var target: Option<Key> := None;
      while todo != {} && target.None?
        invariant todo <= devices.Keys
        invariant target.None? ==> forall k | k in devices.Keys - todo :: devices[k].rec.wordId != wordId
        invariant target.Some? ==> target.value in devices && devices[target.value].rec.wordId == wordId
        decreases todo
      {
        var k :| k in todo;
        if devices[k].rec.wordId == wordId { target := Some(k); }
        todo := todo - {k};
      }
      assert target == KeyNamed(Snapshot(), wordId);
      if target.None? || !devices[target.value].rec.exposed { return UnknownDevice; }
      var d := devices[target.value];
      if !d.online { return DeviceOffline; }
      if d.rec.uuid in claims { return DeviceBusy(claims[d.rec.uuid]); }
      if |sessions| >= MAX_SESSIONS { return SessionLimit; }
      var up := d.rec.assertLinesOnOpen;
      if lines.WantsHigh() && !d.rec.allowControlLines {
        return NeedsGrant;
      } else if lines.WantsHigh() {
        up := true;
      } else if lines.WantsLow() {
        up := false;
      }
      claims := claims[d.rec.uuid := sid];
      return Claimed(d.rec.uuid, d.hw.path, up);
    }

    /** Last locked section of OpenSession. */
    method RegisterSession(sid: Sid, s: Session) returns (ok: bool)
      requires Valid()
      modifies this`sessions, this`claims
      ensures ok == RegisterSucceeds(old(Snapshot()), sid, s.uuid)
      ensures Snapshot() == Register(old(Snapshot()), sid, s)
    {
      var stillOurs := s.uuid in claims && claims[s.uuid] == sid;
      var exposed, found := false, false;
      var todo := devices.Keys;
      while todo != {} && !found
        invariant todo <= devices.Keys && unchanged(this)
        invariant !found ==> !exposed && forall k | k in devices.Keys - todo :: devices[k].rec.uuid != s.uuid
        invariant found ==> (exposed <==> Exposed(Snapshot(), s.uuid))
        decreases todo
      {
        var k :| k in todo;
        if devices[k].rec.uuid == s.uuid { exposed, found := devices[k].rec.exposed, true; }
        todo := todo - {k};
      }
      if !stillOurs || !exposed {
        if stillOurs { claims := claims - {s.uuid}; }
        return false;
      }
      sessions := sessions[sid := s];
      return true;
    }

    /** An undisturbed OpenSession; port is what the hardware open yields when it is called. */
    method OpenSession(wordId: string, lines: Lines, sid: Sid, port: Option<nat>) returns (r: OpenResponse)
      requires Valid()
      modifies this`sessions, this`claims
      ensures r != GivenUp
      ensures r.Opened? <==> ClaimOutcomeOf(old(Snapshot()), wordId, lines).Claimed?
                             && (port.Some? || ClaimOutcomeOf(old(Snapshot()), wordId, lines).uuid in monitors)
      ensures r.Opened? ==>
                var u := ClaimOutcomeOf(old(Snapshot()), wordId, lines).uuid;
                && r == Opened(sid, if u in monitors then Attached(monitors[u]) else Direct(port.value))
                && sessions == old(sessions)[sid := Session(u, wordId, r.handle)]
                && claims == old(claims)[u := sid]
      ensures !r.Opened? ==> Snapshot() == old(Snapshot())
    {
      hide ClaimOutcomeOf, RegisterSucceeds;
      var claim := ClaimDevice(wordId, lines, sid);
      if !claim.Claimed? { return Denied(claim); }
      var u := claim.uuid;
      ClaimCanRegister(old(Snapshot()), wordId, lines, sid);
      var handle;
      if u in monitors {
        handle := Attached(monitors[u]);
      } else if port.Some? {
        handle := Direct(port.value);
      } else {
        claims := claims - {u};
        assert claims == old(claims);
        return OpenFailed;
      }
      var ok := RegisterSession(sid, Session(u, wordId, handle));
      return if ok then Opened(sid, handle) else GivenUp;
    }

    method Close(sid: Sid) returns (released: Option<Handle>)
      modifies this`sessions, this`claims
      ensures Snapshot() == CloseSession(old(Snapshot()), sid)
      ensures released == if sid in old(sessions) then Some(old(sessions)[sid].handle) else None
    {
      if sid !in sessions { return None; }
      var s := sessions[sid];
      sessions := sessions - {sid};
      claims := claims - {s.uuid};
      return Some(s.handle);
    }

    /** An uninterrupted ReleaseDevice: its answer is only whether a claim was held. */
    method ReleaseDevice(u: Uuid) returns (held: bool)
      modifies this`sessions, this`claims
      ensures held <==> u in old(claims)
      ensures Snapshot() == if held then CloseSession(old(Snapshot()), old(claims)[u]) else old(Snapshot())
    {
      if u !in claims { return false; }
      var _ := Close(claims[u]);
      return true;
    }

    /** An uninterrupted SetExposed; a failed save returns before anything is released. */
    method SetExposure(u: Uuid, on: bool, saveOk: bool) returns (ok: bool)
      requires Valid()
      modifies this
      ensures ok <==> saveOk && KeyOf(old(cfg), u).Some?
      ensures var edited := UpdateRec(old(Snapshot()), u, SetExposed(on));
              Snapshot() == if ok && !on && u in old(claims)
                            then CloseSession(edited, old(claims)[u]) else edited
    {
      ok := UpdateRecord(u, SetExposed(on), saveOk);
      if !ok { return; }
      if !on { var _ := ReleaseDevice(u); }
    }

    /** An uninterrupted CloseAll leaves no session and keeps only claims of other opens. */
    method CloseAll()
      requires forall sid | sid in sessions :: StillOurs(Snapshot(), sessions[sid].uuid, sid)
      requires forall u | u in claims && claims[u] in sessions :: sessions[claims[u]].uuid == u
      modifies this`sessions, this`claims
      ensures sessions == map[]
      ensures claims == map u | u in old(claims) && old(claims)[u] !in old(sessions) :: old(claims)[u]
    {
      var ids := sessions.Keys;
      while ids != {}
        invariant ids == sessions.Keys
        invariant forall sid | sid in sessions ::
                    && sid in old(sessions) && sessions[sid] == old(sessions)[sid]
        invariant forall sid | sid in sessions :: StillOurs(Snapshot(), sessions[sid].uuid, sid)
        invariant forall u | u in claims :: u in old(claims) && claims[u] == old(claims)[u]
        invariant forall u | u in old(claims) ::
                    u in claims <==> (old(claims)[u] !in old(sessions) || old(claims)[u] in sessions)
        decreases ids
      {
        var sid :| sid in ids;
        assert StillOurs(Snapshot(), sessions[sid].uuid, sid);
        ghost var u := sessions[sid].uuid;
        assert old(claims)[u] == sid;
        var _ := Close(sid);
        ids := ids - {sid};
      }
    }

    /** One turn of Rescan's first loop; false when no handle could be generated. */
    method ReconcileOne(w: Names.Words, p: PortInfo, identity: Identity) returns (ok: bool)
      requires w.WellFormed()
      modifies this`cfg, this`devices
      ensures match ReconcilePort(old(Snapshot()), w, p, identity)
              case None => !ok && Snapshot() == old(Snapshot())
              case Some(after) => ok && Snapshot() == after
    {
      var rec: Rec;
      if p.key in cfg {
        rec := cfg[p.key];
      } else {
        var id := Names.Generate(w, identity.draws, WordsOf(cfg));
        if id.None? { return false; }
        rec := Rec(identity.uuid, id.value, false, false, false, false, 0);
      }
      cfg := cfg[p.key := rec];
      var resets := 0;
      if p.key in devices {
        resets := devices[p.key].resets;
        if !devices[p.key].online && p.isUsb { resets := resets + 1; }
      }
      devices := devices[p.key := Dev(p.hw, rec, true, resets)];
      return true;
    }

    /** First loop of Rescan: reconcile the enumerated ports. */
    method ReconcilePorts(w: Names.Words, ports: seq<PortInfo>, minted: seq<Identity>)
      returns (ok: bool, dirty: bool, present: set<Key>)
      requires w.WellFormed() && |minted| == |ports|
      modifies this`cfg, this`devices
      ensures (Snapshot(), ok) == Reconcile(old(Snapshot()), w, ports, minted, |ports|)
      ensures ok ==> present == PresentKeys(ports) && (dirty <==> cfg.Keys != old(cfg).Keys)
    {
      hide PresentKeys, Names.Generated;
      ghost var before := Snapshot();
      dirty, present := false, {};
      PresentNone();
      for i := 0 to |ports|
        invariant Reconcile(before, w, ports, minted, i) == (Snapshot(), true)
        invariant present == PresentKeys(ports[..i])
        invariant before.cfg.Keys <= cfg.Keys && (dirty <==> cfg.Keys != before.cfg.Keys)
      {
        var p := ports[i];
        PresentNext(ports, i);
        present := present + {p.key};
        dirty := dirty || p.key !in cfg;
        ok := ReconcileOne(w, p, minted[i]);
        if !ok {
          StuckReconcile(before, w, ports, minted, i, |ports|);
          return;
        }
      }
      assert ports[..|ports|] == ports;
      ok := true;
    }

    /** One turn of Rescan's second loop. */
    method SweepOne(k: Key, present: set<Key>) returns (orphan: set<Sid>, stop: set<Uuid>, start: set<Uuid>)
      requires k in devices
      modifies this`devices
      ensures devices == old(devices)[k := if k in present then old(devices)[k] else old(devices)[k].(online := false)]
      ensures (orphan, stop, start) == FollowupAt(old(Snapshot()), present, k)
    {
      orphan, stop, start := {}, {}, {};
      var d := devices[k];
      if k in present {
        if d.rec.monitored && d.rec.uuid !in monitors { start := {d.rec.uuid}; }
        devices := devices[k := d];
        return;
      }
      if d.rec.uuid in monitors { stop := {d.rec.uuid}; }
      devices := devices[k := d.(online := false)];
      if d.rec.uuid in claims { orphan := {claims[d.rec.uuid]}; }
    }

    /** Second loop of Rescan: mark absent devices and collect what has to follow. */
    method SweepAbsent(present: set<Key>) returns (r: ScanOutcome)
      modifies this`devices
      ensures Snapshot() == MarkAbsent(old(Snapshot()), present)
      ensures r == Followups(old(Snapshot()), present)
    {
      hide HoldersOf, ClaimedAbsent, MonitoredAbsent, UnmonitoredPresent;
      ghost var mid := Snapshot();
      SweepStart(mid, present);
      var orphaned: set<Sid>, stopMon: set<Uuid>, startMon: set<Uuid> := {}, {}, {};
      var todo := devices.Keys;
      while todo != {}
        invariant todo <= devices.Keys == mid.devices.Keys
        invariant forall k | k in devices ::
                    devices[k] == if k in todo || k in present then mid.devices[k] else mid.devices[k].(online := false)
        invariant orphaned == HoldersOf(mid, ClaimedAbsent(mid, present, todo))
        invariant stopMon == MonitoredAbsent(mid, present, todo)
        invariant startMon == UnmonitoredPresent(mid, present, todo)
        decreases todo
      {
        var k :| k in todo;
        SweepStep(mid, present, todo, k);
        todo := todo - {k};
        var orphan, stop, start := SweepOne(k, present);
        orphaned, stopMon, startMon := orphaned + orphan, stopMon + stop, startMon + start;
      }
      assert devices == MarkAbsent(mid, present).devices;
      r := Scanned(orphaned, stopMon, startMon);
    }

    /** The locked part of Rescan. */
    method RescanLocked(w: Names.Words, ports: seq<PortInfo>, minted: seq<Identity>, saveOk: bool)
      returns (r: ScanOutcome)
      requires w.WellFormed() && |minted| == |ports|
      modifies this`cfg, this`devices
      ensures (Snapshot(), r) == Scan(old(Snapshot()), w, ports, minted, saveOk)
    {
      var ok, dirty, present := ReconcilePorts(w, ports, minted);
      if !ok { return NamesFailed; }
      r := SweepAbsent(present);
      if dirty && !saveOk { r := SaveFailed; }
    }

    /** First locked section of startMonitor. */
    method CheckMonitor(u: Uuid) returns (path: Option<string>)
      requires Valid()
      modifies this`devices
      ensures Snapshot() == StartCheck(old(Snapshot()), u) && path == StartPath(old(Snapshot()), u)
    {
      if u in monitors { return None; }
      var key := ByUuidLocked(u);
      if key.None? || !devices[key.value].online { return None; }
      return Some(devices[key.value].hw.path);
    }

    /** Second locked section of startMonitor; false when another start got there first. */
    method InstallMonitor(u: Uuid, m: nat) returns (installed: bool)
      modifies this`monitors
      ensures Snapshot() == StartCommit(old(Snapshot()), u, m) && installed == (u !in old(monitors))
    {
      if u in monitors { return false; }
      monitors := monitors[u := m];
      return true;
    }

    /** What is announced to the relay: the exposed devices and no other, ordered by name. With
        OrderedIsUnique the list does not depend on the map's order. */
    method ExposedDevices() returns (out: seq<Announced>)
      requires Valid()
      ensures ListsExposed(Snapshot(), out)
    {
      out := [];
      var todo := devices.Keys;
      while todo != {}
        invariant todo <= devices.Keys && DistinctNames(out)
        invariant forall d :: d in out <==>
                    exists k :: k in devices && k !in todo && devices[k].rec.exposed && d == AnnouncedOf(Snapshot(), k)
        decreases todo
      {
        var k :| k in todo;
        todo := todo - {k};
        if !devices[k].rec.exposed { continue; }
        var d := devices[k];
        forall i | 0 <= i < |out| ensures out[i].wordId != d.rec.wordId {
          assert out[i] in out;
          var l :| l in devices && l !in todo && l != k && out[i] == AnnouncedOf(Snapshot(), l);
          assert AnnouncedOf(Snapshot(), l).wordId == devices[l].rec.wordId;
          assert l in cfg && devices[l].rec == cfg[l] && devices[k].rec == cfg[k];
        }
        out := out + [Announce(d, d.rec.uuid in claims, d.rec.uuid in monitors)];
      }
      out := SortByName(out);
    }

    /** Locked section of stopMonitor. */
    method RemoveMonitor(u: Uuid) returns (removed: Option<nat>)
      requires Valid()
      modifies this`monitors, this`devices
      ensures Snapshot() == StopMonitor(old(Snapshot()), u)
      ensures removed == if u in old(monitors) then Some(old(monitors)[u]) else None
    {
      removed := if u in monitors then Some(monitors[u]) else None;
      monitors := monitors - {u};
      var _ := ByUuidLocked(u);
    }
  }

  /** Once name generation has stopped a scan, the remaining ports change nothing. */
  lemma {:induction false} StuckReconcile(
      v: View, w: Names.Words, ports: seq<PortInfo>, minted: seq<Identity>, i: nat, n: nat)
    requires w.WellFormed() && |minted| == |ports| && i < n <= |ports|
    requires Reconcile(v, w, ports, minted, i).1
    requires ReconcilePort(Reconcile(v, w, ports, minted, i).0, w, ports[i], minted[i]).None?
    ensures Reconcile(v, w, ports, minted, n) == (Reconcile(v, w, ports, minted, i).0, false)
  {
    if n > i + 1 { StuckReconcile(v, w, ports, minted, i, n - 1); }
  }

  /** Raising the lines needs the grant or the device's own policy, and a caller who asks for a
      line to stay low is honoured exactly when the same call asks for no line to go high. */
  lemma LinesAreHonouredIff(v: View, wordId: string, lines: Lines)
    requires ClaimOutcomeOf(v, wordId, lines).Claimed?
    ensures var r, d := ClaimOutcomeOf(v, wordId, lines), v.devices[KeyNamed(v, wordId).value];
            && (r.assertLines <==> (lines.WantsHigh() && d.rec.allowControlLines)
                                   || (lines == Lines(None, None) && d.rec.assertLinesOnOpen))
            && (lines.WantsLow() ==> (!r.assertLines <==> !lines.WantsHigh()))
  {
    if lines.dtr.Some? && !lines.dtr.value { assert lines.WantsLow(); }
    if lines.rts.Some? && !lines.rts.value { assert lines.WantsLow(); }
    if lines.dtr.Some? && lines.dtr.value { assert lines.WantsHigh(); }
    if lines.rts.Some? && lines.rts.value { assert lines.WantsHigh(); }
    assert !lines.WantsHigh() && !lines.WantsLow() ==> lines == Lines(None, None);
  }

  /** A concrete request that asks for DTR low and still has both lines raised. */
  lemma LowRequestCanBeOverridden()
    ensures var r := Rec(1, "amber-falcon", true, true, false, false, 0);
            var v := View(map[7 := r], map[7 := Dev(NO_HARDWARE.(path := "COM3"), r, true, 0)], map[], map[], map[]);
            ClaimOutcomeOf(v, "amber-falcon", Lines(Some(false), Some(true))) == Claimed(1, "COM3", true)
  {
    var r := Rec(1, "amber-falcon", true, true, false, false, 0);
    var v := View(map[7 := r], map[7 := Dev(NO_HARDWARE.(path := "COM3"), r, true, 0)], map[], map[], map[]);
    assert v.devices[7].rec.wordId == "amber-falcon";
    assert KeyNamed(v, "amber-falcon") == Some(7);
  }
}
