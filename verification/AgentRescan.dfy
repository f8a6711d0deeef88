// What rescans guarantee on every run: devices that vanish, and reset counts.
module AgentRescan {
  import opened Prelude
  import opened Registry
  import opened AgentSystem
  import opened AgentTheorems
  import Names

  // ---- Devices that vanish ----

  /** The device with key k and uuid u is known and not present. */
  ghost predicate Off(v: View, k: Key, u: Uuid) {
    && k in v.cfg && v.cfg[k].uuid == u
    && (k in v.devices ==> !v.devices[k].online)
  }

  predicate Finds(l: Label, k: Key) { l.ScanStep? && k in PresentKeys(l.ports) }

  lemma OffIsNotOnline(v: View, k: Key, u: Uuid)
    requires WellFormed(v) && Off(v, k, u)
    ensures !Online(v, u)
  {
  }

  lemma {:induction false} ReconcileKeepsOthers(
      v: View, w: Names.Words, ports: seq<PortInfo>, minted: seq<Identity>, n: nat, k: Key)
    requires w.WellFormed() && |minted| == |ports| && n <= |ports|
    requires k in v.cfg && k !in PresentKeys(ports)
    ensures var u := Reconcile(v, w, ports, minted, n).0;
            && k in u.cfg && u.cfg[k] == v.cfg[k]
            && (k in u.devices <==> k in v.devices)
            && (k in u.devices ==> u.devices[k] == v.devices[k])
  {
    if n > 0 {
      assert ports[n - 1].key in PresentKeys(ports);
      ReconcileKeepsOthers(v, w, ports, minted, n - 1, k);
    }
  }

  lemma ScanKeepsOff(
      v: View, w: Names.Words, ports: seq<PortInfo>, minted: seq<Identity>, saveOk: bool, k: Key, u: Uuid)
    requires w.WellFormed() && |minted| == |ports| && Off(v, k, u) && k !in PresentKeys(ports)
    ensures Off(Scan(v, w, ports, minted, saveOk).0, k, u)
  {
    ReconcileKeepsOthers(v, w, ports, minted, |ports|, k);
    hide Reconcile;
  }

  /** The uuid and presence of k survive; at most an offline placeholder with no resets appears. */
  ghost predicate PresenceKept(v: View, t: View, k: Key) {
    && (k in v.cfg ==> k in t.cfg && t.cfg[k].uuid == v.cfg[k].uuid)
    && (k in v.devices ==>
          k in t.devices && t.devices[k].online == v.devices[k].online && t.devices[k].resets == v.devices[k].resets)
    && (k !in v.devices && k in t.devices ==> !t.devices[k].online && t.devices[k].resets == 0)
  }

  lemma WithDeviceKeepsPresence(v: View, u: Uuid, k: Key)
    ensures PresenceKept(v, WithDevice(v, u), k)
  {
  }

  lemma UpdateKeepsPresence(v: View, u: Uuid, e: Edit, k: Key)
    ensures PresenceKept(v, UpdateRec(v, u, e), k)
  {
  }

  lemma RenameKeepsPresence(v: View, w: Names.Words, u: Uuid, draws: Names.Draws, k: Key)
    requires w.WellFormed()
    ensures PresenceKept(v, Rename(v, w, u, draws), k)
  {
    hide Names.Generated;
  }

  lemma PresenceKeepsOff(v: View, t: View, k: Key, u: Uuid)
    requires Off(v, k, u) && PresenceKept(v, t, k)
    ensures Off(t, k, u)
  {
  }

  lemma StepKeepsOff(s: Sys, l: Label, k: Key, u: Uuid)
    requires s.words.WellFormed() && Enabled(s, l) && Off(s.v, k, u) && !Finds(l, k)
    ensures Off(Step(s, l).v, k, u)
  {
    hide Scan, UpdateRec, Rename, WithDevice;
    if l.ScanStep? {
      hide Off;
      ScanKeepsOff(s.v, s.words, l.ports, l.minted, l.saveOk, k, u);
    } else if l.UpdateStep? {
      hide Off;
      UpdateKeepsPresence(s.v, l.uuid, l.edit, k);
      PresenceKeepsOff(s.v, Step(s, l).v, k, u);
    } else if l.RenameStep? {
      hide Off;
      RenameKeepsPresence(s.v, s.words, l.uuid, l.draws, k);
      PresenceKeepsOff(s.v, Step(s, l).v, k, u);
    } else if l.StartStep? || l.StopStep? {
      hide Off;
      WithDeviceKeepsPresence(s.v, l.uuid, k);
      PresenceKeepsOff(s.v, Step(s, l).v, k, u);
    } else {
      OtherStepsKeepRegistry(s, l);
      hide Step;
    }
  }

  lemma OfflineEffect(s: Sys, l: Label, t: Sys, sid: Sid, u: Uuid)
    requires Effect(s, l, t) && !Online(s.v, u) && WorksOn(t, sid, u)
    ensures WorksOn(s, sid, u)
  {
    hide Exposed, Online;
  }

  lemma OffAcross(ss: seq<Sys>, ls: seq<Label>, i: nat, k: Key, u: Uuid, sid: Sid)
    requires Run(ss, ls) && i < |ls| && Off(ss[i].v, k, u) && !Finds(ls[i], k)
    ensures Off(ss[i + 1].v, k, u)
    ensures WorksOn(ss[i + 1], sid, u) ==> WorksOn(ss[i], sid, u)
  {
    hide Run, Step, Enabled, Effect, Off, Online, WorksOn, Finds;
    hide ClaimsConserved, PortsTracked, MonitorsTracked, WellFormed;
    RunShape(ss, ls);
    RunStep(ss, ls, i);
    StepKeepsOff(ss[i], ls[i], k, u);
    OffIsNotOnline(ss[i].v, k, u);
    if WorksOn(ss[i + 1], sid, u) { OfflineEffect(ss[i], ls[i], ss[i + 1], sid, u); }
  }

  ghost predicate NeverFound(ls: seq<Label>, k: Key, a: nat, b: nat) {
    forall x | a <= x < b && x < |ls| :: !Finds(ls[x], k)
  }

  lemma NeverFoundPart(ls: seq<Label>, k: Key, a: nat, b: nat, c: nat, d: nat)
    requires a <= c && d <= b && NeverFound(ls, k, a, b)
    ensures NeverFound(ls, k, c, d)
    ensures a <= c < b && c < |ls| ==> !Finds(ls[c], k)
  {
  }

  /** While a device stays missing, whatever works on it did so from the start. */
  lemma {:induction false} OffStaysQuiet(ss: seq<Sys>, ls: seq<Label>, a: nat, b: nat, k: Key, u: Uuid, sid: Sid)
    requires Run(ss, ls) && a <= b < |ss| && Off(ss[a].v, k, u) && NeverFound(ls, k, a, b)
    ensures Off(ss[b].v, k, u)
    ensures WorksOn(ss[b], sid, u) ==> WorksOn(ss[a], sid, u)
    decreases b - a
  {
    hide *;
    RunShape(ss, ls);
    if a < b {
      NeverFoundPart(ls, k, a, b, a, b - 1);
      NeverFoundPart(ls, k, a, b, b - 1, b);
      OffStaysQuiet(ss, ls, a, b - 1, k, u, sid);
      OffAcross(ss, ls, b - 1, k, u, sid);
    }
  }

  /** A completed rescan hands CloseSession the claim of exactly the devices it did not find. */
  lemma OrphansAreClaimsOfAbsentDevices(
      v: View, w: Names.Words, ports: seq<PortInfo>, minted: seq<Identity>, saveOk: bool, sid: Sid)
    requires w.WellFormed() && |minted| == |ports| && WellFormed(v) && Scan(v, w, ports, minted, saveOk).1.Scanned?
    ensures sid in Scan(v, w, ports, minted, saveOk).1.orphaned <==>
            exists k | k in v.devices && k !in PresentKeys(ports) ::
              v.cfg[k].uuid in v.claims && v.claims[v.cfg[k].uuid] == sid
  {
    var present := PresentKeys(ports);
    var mid := Reconcile(v, w, ports, minted, |ports|).0;
    ReconcileFrame(v, w, ports, minted, |ports|);
    var r := Scan(v, w, ports, minted, saveOk).1;
    assert r.orphaned == HoldersOf(mid, ClaimedAbsent(mid, present, {}));
    if sid in r.orphaned {
      var u :| u in ClaimedAbsent(mid, present, {}) && u in mid.claims && mid.claims[u] == sid;
      var k :| k in mid.devices && k !in present && mid.devices[k].rec.uuid == u;
      AbsentWasKnown(v, w, ports, minted, |ports|, k);
      ReconcileKeepsOthers(v, w, ports, minted, |ports|, k);
    }
    if k :| k in v.devices && k !in present && v.cfg[k].uuid in v.claims && v.claims[v.cfg[k].uuid] == sid {
      ReconcileKeepsOthers(v, w, ports, minted, |ports|, k);
      assert mid.devices[k].rec.uuid in ClaimedAbsent(mid, present, {});
    }
  }

  lemma {:induction false} PresentIsKnown(
      v: View, w: Names.Words, ports: seq<PortInfo>, minted: seq<Identity>, n: nat, i: nat)
    requires w.WellFormed() && |minted| == |ports| && i < n <= |ports|
    requires Reconcile(v, w, ports, minted, n).1
    ensures ports[i].key in Reconcile(v, w, ports, minted, n).0.devices
  {
    hide Names.Generated;
    if i < n - 1 { PresentIsKnown(v, w, ports, minted, n - 1, i); }
  }

  /** A completed rescan starts a monitor for exactly the monitored devices it found without one, and
      stops exactly the monitors of devices it did not find. */
  lemma MonitorsFollowPresence(
      v: View, w: Names.Words, ports: seq<PortInfo>, minted: seq<Identity>, saveOk: bool, u: Uuid)
    requires w.WellFormed() && |minted| == |ports| && WellFormed(v) && FreshIdentities(v.cfg, minted)
    requires Scan(v, w, ports, minted, saveOk).1.Scanned?
    ensures var (t, r) := Scan(v, w, ports, minted, saveOk);
            && (u in r.startMonitors <==> u !in v.monitors && FoundMonitored(t, PresentKeys(ports), u))
            && (u in r.stopMonitors <==> u in v.monitors && NotFound(t, PresentKeys(ports), u))
  {
    var present := PresentKeys(ports);
    var mid := Reconcile(v, w, ports, minted, |ports|).0;
    var (t, r) := Scan(v, w, ports, minted, saveOk);
    ReconcileFrame(v, w, ports, minted, |ports|);
    ReconcileKeeps(v, w, ports, minted, |ports|);
    forall k | k in present ensures k in mid.devices {
      var i :| 0 <= i < |ports| && ports[i].key == k;
      PresentIsKnown(v, w, ports, minted, |ports|, i);
    }
    FollowupMonitors(mid, t, present, u);
  }

  ghost predicate FoundMonitored(t: View, present: set<Key>, u: Uuid) {
    exists k :: k in present && k in t.cfg && t.cfg[k].uuid == u && t.cfg[k].monitored
  }

  ghost predicate NotFound(t: View, present: set<Key>, u: Uuid) {
    exists k :: k in t.devices && k !in present && k in t.cfg && t.cfg[k].uuid == u
  }

  lemma FollowupMonitors(mid: View, t: View, present: set<Key>, u: Uuid)
    requires WellFormed(mid) && t == MarkAbsent(mid, present) && forall k | k in present :: k in mid.devices
    ensures u in UnmonitoredPresent(mid, present, {}) <==> u !in mid.monitors && FoundMonitored(t, present, u)
    ensures u in MonitoredAbsent(mid, present, {}) <==> u in mid.monitors && NotFound(t, present, u)
  {
    if u !in mid.monitors && FoundMonitored(t, present, u) {
      var k :| k in present && k in t.cfg && t.cfg[k].uuid == u && t.cfg[k].monitored;
      assert mid.devices[k].rec == mid.cfg[k];
    }
    if u in mid.monitors && NotFound(t, present, u) {
      var k :| k in t.devices && k !in present && k in t.cfg && t.cfg[k].uuid == u;
      assert mid.devices[k].rec == mid.cfg[k];
    }
  }

  lemma {:induction false} AbsentWasKnown(
      v: View, w: Names.Words, ports: seq<PortInfo>, minted: seq<Identity>, n: nat, k: Key)
    requires w.WellFormed() && |minted| == |ports| && n <= |ports| && WellFormed(v)
    requires k !in PresentKeys(ports) && k in Reconcile(v, w, ports, minted, n).0.devices
    ensures k in v.devices && k in v.cfg
  {
    if n > 0 {
      assert ports[n - 1].key in PresentKeys(ports);
      AbsentWasKnown(v, w, ports, minted, n - 1, k);
    }
  }

  lemma {:induction false} ReconciledKeys(
      v: View, w: Names.Words, ports: seq<PortInfo>, minted: seq<Identity>, n: nat)
    requires w.WellFormed() && |minted| == |ports| && n <= |ports| && Reconcile(v, w, ports, minted, n).1
    ensures Reconcile(v, w, ports, minted, n).0.cfg.Keys == v.cfg.Keys + PresentKeys(ports[..n])
  {
    hide Names.Generated, PresentKeys;
    if n > 0 {
      ReconciledKeys(v, w, ports, minted, n - 1);
      PresentNext(ports, n - 1);
    } else {
      PresentNone();
    }
  }

  /** A rescan completes exactly when every new port got a name, and saving worked unless no port was
      new. */
  lemma ScanCompletesIff(v: View, w: Names.Words, ports: seq<PortInfo>, minted: seq<Identity>, saveOk: bool)
    requires w.WellFormed() && |minted| == |ports|
    ensures Scan(v, w, ports, minted, saveOk).1.Scanned? <==>
              Reconcile(v, w, ports, minted, |ports|).1 && (saveOk || PresentKeys(ports) <= v.cfg.Keys)
  {
    hide Reconcile, PresentKeys;
    if Reconcile(v, w, ports, minted, |ports|).1 {
      ReconciledKeys(v, w, ports, minted, |ports|);
      assert ports[..|ports|] == ports;
    }
  }

  /** What a rescan does about a device it did not find, held by sid. It hands the session over for
      closing exactly when it completes. When saving fails the device is marked absent all the same;
      when naming fails not even that. Sessions and claims are left as they are. */
  lemma MissedIsHandedOverIff(
      v: View, w: Names.Words, ports: seq<PortInfo>, minted: seq<Identity>, saveOk: bool, k: Key, sid: Sid)
    requires w.WellFormed() && |minted| == |ports| && WellFormed(v)
    requires k in v.devices && k !in PresentKeys(ports) && StillOurs(v, v.cfg[k].uuid, sid)
    ensures var (t, r) := Scan(v, w, ports, minted, saveOk);
            && (HandsOver(r, sid) <==> r.Scanned?)
            && t.sessions == v.sessions && t.claims == v.claims
            && if r.NamesFailed? then k in t.devices && t.devices[k] == v.devices[k] else Off(t, k, v.cfg[k].uuid)
  {
    var (t, r) := Scan(v, w, ports, minted, saveOk);
    ReconcileFrame(v, w, ports, minted, |ports|);
    ReconcileKeepsOthers(v, w, ports, minted, |ports|, k);
    hide Reconcile;
    if r.Scanned? { OrphansAreClaimsOfAbsentDevices(v, w, ports, minted, saveOk, sid); }
  }

  predicate HandsOver(r: ScanOutcome, sid: Sid) { r.Scanned? && sid in r.orphaned }

  lemma MissedScanTurnsOff(
      v: View, w: Names.Words, ports: seq<PortInfo>, minted: seq<Identity>, saveOk: bool, k: Key)
    requires w.WellFormed() && |minted| == |ports| && WellFormed(v)
    requires !Scan(v, w, ports, minted, saveOk).1.NamesFailed? && k in v.devices && k !in PresentKeys(ports)
    ensures Off(Scan(v, w, ports, minted, saveOk).0, k, v.cfg[k].uuid)
  {
    ReconcileKeepsOthers(v, w, ports, minted, |ports|, k);
    hide Reconcile;
  }

  /** Step i is a rescan that did not find the device with key k and uuid u. */
  ghost predicate Overlooks(ss: seq<Sys>, ls: seq<Label>, i: nat, k: Key, u: Uuid) {
    && i < |ls| && i < |ss| && ls[i].ScanStep? && |ls[i].minted| == |ls[i].ports| && ss[i].words.WellFormed()
    && k in ss[i].v.devices && k in ss[i].v.cfg && ss[i].v.cfg[k].uuid == u && k !in PresentKeys(ls[i].ports)
  }

  ghost function OutcomeAt(ss: seq<Sys>, ls: seq<Label>, i: nat): ScanOutcome
    requires i < |ls| && i < |ss| && ls[i].ScanStep? && |ls[i].minted| == |ls[i].ports| && ss[i].words.WellFormed()
  {
    Scan(ss[i].v, ss[i].words, ls[i].ports, ls[i].minted, ls[i].saveOk).1
  }

  /** It got past naming new ports, whether or not it could save them. */
  ghost predicate Misses(ss: seq<Sys>, ls: seq<Label>, i: nat, k: Key, u: Uuid) {
    Overlooks(ss, ls, i, k, u) && !OutcomeAt(ss, ls, i).NamesFailed?
  }

  lemma ScanTurnsOff(ss: seq<Sys>, ls: seq<Label>, i: nat, k: Key, u: Uuid)
    requires Run(ss, ls) && Misses(ss, ls, i, k, u)
    ensures i + 1 < |ss| && Off(ss[i + 1].v, k, u)
    ensures ss[i + 1].opens == ss[i].opens && ss[i + 1].v.sessions == ss[i].v.sessions
  {
    hide Run, Effect, ClaimsConserved, PortsTracked, MonitorsTracked, Scan, Off;
    RunShape(ss, ls);
    RunStep(ss, ls, i);
    RegistryFrame(ss[i], ls[i]);
    MissedScanTurnsOff(ss[i].v, ss[i].words, ls[i].ports, ls[i].minted, ls[i].saveOk, k);
  }

  /** After a rescan (step i) missed a device, and until a rescan finds it again, only the holder of
      its claim at that moment works on it. */
  lemma OnlyTheHolderRemains(ss: seq<Sys>, ls: seq<Label>, i: nat, j: nat, k: Key, u: Uuid, sid: Sid)
    requires Run(ss, ls) && i < j < |ss| && Misses(ss, ls, i, k, u) && NeverFound(ls, k, i + 1, j)
    ensures Off(ss[j].v, k, u)
    ensures WorksOn(ss[j], sid, u) ==> StillOurs(ss[i].v, u, sid) && sid in ss[i].used
  {
    hide Run, Misses, Off, NeverFound;
    RunShape(ss, ls);
    ScanTurnsOff(ss, ls, i, k, u);
    OffStaysQuiet(ss, ls, i + 1, j, k, u, sid);
    if WorksOn(ss[j], sid, u) {
      assert WorksOn(ss[i], sid, u);
      ClaimsAreOpensAndSessions(ss, ls, i, u, sid);
      ClaimHolder(ss, ls, i, u, u);
    }
  }

  /** A vanished device loses its session: a rescan (step i) missed it, and the close of the session
      its claim named (step m) came when that open had registered, or ended. Then no session on it
      exists until a rescan finds it again. AgentLost says exactly when both premises are met. */
  lemma LostDeviceLosesItsSession(ss: seq<Sys>, ls: seq<Label>, i: nat, m: nat, j: nat, k: Key, u: Uuid)
    requires Run(ss, ls) && i < m < j < |ss| && Misses(ss, ls, i, k, u) && NeverFound(ls, k, i + 1, j)
    requires u in ss[i].v.claims ==> ls[m] == CloseStep(ss[i].v.claims[u]) && ss[i].v.claims[u] !in ss[m].opens
    ensures NoSessionOn(ss[j], u)
  {
    hide Run, Misses, Off, NeverFound;
    RunShape(ss, ls);
    forall sid | sid in ss[j].v.sessions ensures ss[j].v.sessions[sid].uuid != u {
      if ss[j].v.sessions[sid].uuid == u {
        OnlyTheHolderRemains(ss, ls, i, j, k, u, sid);
        WorkedBefore(ss, ls, i, m, sid, u);
        SessionsAreNeverReopened(ss, ls, m, j, sid);
      }
    }
  }

  /** Registration looks at exposure only, so an open that was in flight when its device vanished
      still becomes a session on the absent device. */
  lemma RegistrationIgnoresPresence(ss: seq<Sys>, ls: seq<Label>, i: nat, sid: Sid)
    requires Run(ss, ls) && i < |ls| && ls[i] == RegisterStep(sid) && sid in ss[i].opens
    ensures sid in ss[i + 1].v.sessions <==> Exposed(ss[i].v, ss[i].opens[sid].uuid)
  {
    StillOursAlwaysHolds(ss, ls, i, sid);
    NewIdsAreFresh(ss, ls, i);
    hide Exposed;
    RegisterStepResult(ss, ls, i, sid);
  }

  lemma RegisterStepResult(ss: seq<Sys>, ls: seq<Label>, i: nat, sid: Sid)
    requires Run(ss, ls) && i < |ls| && ls[i] == RegisterStep(sid) && sid in ss[i].opens && sid !in ss[i].v.sessions
    ensures sid in ss[i + 1].v.sessions <==> RegisterSucceeds(ss[i].v, sid, ss[i].opens[sid].uuid)
  {
    hide *;
    RunShape(ss, ls);
    RunStep(ss, ls, i);
    InvWords(ss[i]);
    RegisterResult(ss[i], ls[i], ss[i + 1], sid);
  }

  lemma RegisterResult(s: Sys, l: Label, t: Sys, sid: Sid)
    requires s.words.WellFormed() && Enabled(s, l) && l == RegisterStep(sid) && t == Step(s, l) && sid !in s.v.sessions
    ensures sid in t.v.sessions <==> RegisterSucceeds(s.v, sid, s.opens[sid].uuid)
  {
    hide Exposed, Step, Enabled;
    RegisterStepIs(s, sid);
  }

  // ---- Reset counts ----

  /** What one step lets the agent observe about the device with a given key. */
  datatype Observation = Nothing | Seen(usb: bool) | Missed | Placeheld

  /** How many ports a scan gets through before name generation fails, if it does. */
  function PortsReached(v: View, w: Names.Words, ports: seq<PortInfo>, minted: seq<Identity>, n: nat): nat
    requires w.WellFormed() && |minted| == |ports| && n <= |ports|
    ensures PortsReached(v, w, ports, minted, n) <= n
  {
    if n == 0 then 0
    else if Reconcile(v, w, ports, minted, n).1 then n
    else PortsReached(v, w, ports, minted, n - 1)
  }

  /** The first of the n leading ports with key k. */
  function FirstWithKey(ports: seq<PortInfo>, k: Key, n: nat): Option<PortInfo>
    requires n <= |ports|
  {
    if n == 0 then None
    else
      var before := FirstWithKey(ports, k, n - 1);
      if before.Some? then before else if ports[n - 1].key == k then Some(ports[n - 1]) else None
  }

  function ScanObservation(v: View, w: Names.Words, ports: seq<PortInfo>, minted: seq<Identity>, k: Key): Observation
    requires w.WellFormed() && |minted| == |ports|
  {
    var reached := PortsReached(v, w, ports, minted, |ports|);
    match FirstWithKey(ports, k, reached)
    case Some(p) => Seen(p.isUsb)
    case None => if reached == |ports| && k in v.devices then Missed else Nothing
  }

  ghost function Observe(s: Sys, l: Label, k: Key): Observation
    requires s.words.WellFormed() && Enabled(s, l)
  {
    match l
    case ScanStep(ports, minted, _) => ScanObservation(s.v, s.words, ports, minted, k)
    case _ =>
      if k !in s.v.devices && k in Step(s, l).v.devices then Placeheld else Nothing
  }

  ghost function History(ss: seq<Sys>, ls: seq<Label>, k: Key, n: nat): seq<Observation>
    requires Run(ss, ls) && n <= |ls|
  {
    if n == 0 then [] else
      assert Linked(ss[n - 1], ls[n - 1], ss[n]);
      History(ss, ls, k, n - 1) + [Observe(ss[n - 1], ls[n - 1], k)]
  }

  /** The most recent observation that says anything. */
  function Latest(h: seq<Observation>): Observation {
    if h == [] then Nothing
    else if h[|h| - 1] != Nothing then h[|h| - 1]
    else Latest(h[..|h| - 1])
  }

  predicate IsAway(o: Observation) { o == Missed || o == Placeheld }

  /** The indices at which a USB device was found again after last being known as away. */
  function Returns(h: seq<Observation>): set<nat> {
    set i: nat | i < |h| && h[i] == Seen(true) && IsAway(Latest(h[..i]))
  }

  ghost predicate CountsMatch(v: View, k: Key, h: seq<Observation>) {
    && (k in v.devices <==> Latest(h) != Nothing)
    && (k !in v.devices ==> |Returns(h)| == 0)
    && (k in v.devices ==> (v.devices[k].online <==> Latest(h).Seen?) && v.devices[k].resets == |Returns(h)|)
  }

  lemma LatestAppend(h: seq<Observation>, o: Observation)
    ensures Latest(h + [o]) == if o == Nothing then Latest(h) else o
  {
    assert (h + [o])[..|h|] == h;
  }

  lemma ReturnsAppend(h: seq<Observation>, o: Observation)
    ensures |Returns(h + [o])| == |Returns(h)| + if o == Seen(true) && IsAway(Latest(h)) then 1 else 0
  {
    var g := h + [o];
    assert g[..|h|] == h;
    hide Latest, IsAway;
    forall i: nat | i < |h| ensures i in Returns(g) <==> i in Returns(h) {
      assert g[..i] == h[..i];
    }
    var extra := if o == Seen(true) && IsAway(Latest(h)) then {|h|} else {};
    assert |h| in Returns(g) <==> |h| in extra;
    assert Returns(g) == Returns(h) + extra;
  }

  /** The registry entry of k after one observation. */
  ghost predicate Tracks(v: View, t: View, k: Key, o: Observation) {
    match o
    case Nothing =>
      && (k in t.devices <==> k in v.devices)
      && (k in v.devices ==> t.devices[k].online == v.devices[k].online && t.devices[k].resets == v.devices[k].resets)
    case Missed =>
      k in v.devices && k in t.devices && !t.devices[k].online && t.devices[k].resets == v.devices[k].resets
    case Placeheld =>
      k !in v.devices && k in t.devices && !t.devices[k].online && t.devices[k].resets == 0
    case Seen(usb) =>
      && k in t.devices && t.devices[k].online
      && (k !in v.devices ==> t.devices[k].resets == 0)
      && (k in v.devices ==>
            t.devices[k].resets == v.devices[k].resets + if !v.devices[k].online && usb then 1 else 0)
  }

  lemma {:induction false} ReconcileTracks(
      v: View, w: Names.Words, ports: seq<PortInfo>, minted: seq<Identity>, n: nat, k: Key)
    requires w.WellFormed() && |minted| == |ports| && n <= |ports|
    ensures var reached := PortsReached(v, w, ports, minted, n);
            && (Reconcile(v, w, ports, minted, n).1 <==> reached == n)
            && Tracks(v, Reconcile(v, w, ports, minted, n).0, k,
                      match FirstWithKey(ports, k, reached) case Some(p) => Seen(p.isUsb) case None => Nothing)
  {
    hide ReconcilePort, Tracks;
    if n > 0 {
      ReconcileTracks(v, w, ports, minted, n - 1, k);
      var (u, ok) := Reconcile(v, w, ports, minted, n - 1);
      var p, x := ports[n - 1], ReconcilePort(u, w, ports[n - 1], minted[n - 1]);
      if ok && x.Some? {
        PortTracks(u, w, p, minted[n - 1], k);
        var now := if p.key == k then Seen(p.isUsb) else Nothing;
        match FirstWithKey(ports, k, n - 1)
        case Some(first) => TracksThen(v, u, x.value, k, Seen(first.isUsb), now);
        case None => TracksThen(v, u, x.value, k, Nothing, now);
      }
    } else {
      TracksNothing(v, k);
    }
  }

  lemma TracksNothing(v: View, k: Key)
    ensures Tracks(v, v, k, Nothing)
  {
  }

  lemma PortTracks(v: View, w: Names.Words, p: PortInfo, f: Identity, k: Key)
    requires w.WellFormed() && ReconcilePort(v, w, p, f).Some?
    ensures Tracks(v, ReconcilePort(v, w, p, f).value, k, if p.key == k then Seen(p.isUsb) else Nothing)
  {
    hide Names.Generated;
  }

  /** Within one scan the first sighting counts: the device is online from then on. */
  lemma TracksThen(v: View, u: View, t: View, k: Key, first: Observation, second: Observation)
    requires Tracks(v, u, k, first) && Tracks(u, t, k, second) && (first.Nothing? || first.Seen?)
    requires second.Nothing? || second.Seen?
    ensures Tracks(v, t, k, if first.Nothing? then second else first)
  {
  }

  lemma ScanTracks(v: View, w: Names.Words, ports: seq<PortInfo>, minted: seq<Identity>, saveOk: bool, k: Key)
    requires w.WellFormed() && |minted| == |ports|
    ensures Tracks(v, Scan(v, w, ports, minted, saveOk).0, k, ScanObservation(v, w, ports, minted, k))
  {
    ReconcileTracks(v, w, ports, minted, |ports|, k);
    var reached := PortsReached(v, w, ports, minted, |ports|);
    if FirstWithKey(ports, k, reached).Some? {
      FirstIsPresent(ports, k, reached);
    } else if reached == |ports| {
      AbsentIsNotPresent(ports, k, |ports|);
    }
    hide Reconcile, PortsReached, FirstWithKey;
  }

  lemma {:induction false} FirstIsPresent(ports: seq<PortInfo>, k: Key, n: nat)
    requires n <= |ports| && FirstWithKey(ports, k, n).Some?
    ensures k in PresentKeys(ports)
  {
    if FirstWithKey(ports, k, n - 1).Some? {
      FirstIsPresent(ports, k, n - 1);
    } else {
      assert ports[n - 1] in ports;
    }
  }

  lemma {:induction false} AbsentIsNotPresent(ports: seq<PortInfo>, k: Key, n: nat)
    requires n <= |ports| && FirstWithKey(ports, k, n).None?
    ensures forall i | 0 <= i < n :: ports[i].key != k
  {
    if n > 0 { AbsentIsNotPresent(ports, k, n - 1); }
  }

  lemma StepTracks(s: Sys, l: Label, k: Key)
    requires s.words.WellFormed() && Enabled(s, l)
    ensures Tracks(s.v, Step(s, l).v, k, Observe(s, l, k))
  {
    hide Scan, UpdateRec, Rename, WithDevice;
    if l.ScanStep? {
      hide Tracks, ScanObservation;
      ScanTracks(s.v, s.words, l.ports, l.minted, l.saveOk, k);
    } else if l.UpdateStep? {
      UpdateKeepsPresence(s.v, l.uuid, l.edit, k);
    } else if l.RenameStep? {
      RenameKeepsPresence(s.v, s.words, l.uuid, l.draws, k);
    } else if l.StartStep? || l.StopStep? {
      WithDeviceKeepsPresence(s.v, l.uuid, k);
    } else {
      OtherStepsKeepRegistry(s, l);
      hide Step;
    }
  }

  lemma CountsAcross(v: View, t: View, k: Key, h: seq<Observation>, o: Observation)
    requires CountsMatch(v, k, h) && Tracks(v, t, k, o)
    ensures CountsMatch(t, k, h + [o])
  {
    ReturnsAppend(h, o);
    LatestAppend(h, o);
    hide Returns, Latest;
  }

  lemma TracksAcross(ss: seq<Sys>, ls: seq<Label>, i: nat, k: Key)
    requires Run(ss, ls) && i < |ls|
    ensures ss[i].words.WellFormed() && Enabled(ss[i], ls[i])
    ensures Tracks(ss[i].v, ss[i + 1].v, k, Observe(ss[i], ls[i], k))
  {
    hide Run, Effect, Step, Enabled, ClaimsConserved, PortsTracked, MonitorsTracked, WellFormed, Tracks, Observe;
    RunShape(ss, ls);
    RunStep(ss, ls, i);
    StepTracks(ss[i], ls[i], k);
  }

  lemma InitialCounts(ss: seq<Sys>, ls: seq<Label>, k: Key)
    requires Run(ss, ls)
    ensures CountsMatch(ss[0].v, k, [])
  {
    hide Linked;
  }

  lemma HistoryStep(ss: seq<Sys>, ls: seq<Label>, k: Key, n: nat)
    requires Run(ss, ls) && 0 < n <= |ls| && ss[n - 1].words.WellFormed() && Enabled(ss[n - 1], ls[n - 1])
    ensures History(ss, ls, k, n) == History(ss, ls, k, n - 1) + [Observe(ss[n - 1], ls[n - 1], k)]
  {
    hide Run, Enabled, Observe;
  }

  /** The reset count of a device is the number of times it was found on USB after a scan had
      missed it, or after it had only been known as a placeholder. */
  lemma {:induction false} ResetsCountReturns(ss: seq<Sys>, ls: seq<Label>, k: Key, n: nat)
    requires Run(ss, ls) && n <= |ls|
    ensures n < |ss| && CountsMatch(ss[n].v, k, History(ss, ls, k, n))
  {
    hide Run, Enabled, Observe, Tracks, CountsMatch, Linked;
    RunShape(ss, ls);
    if n == 0 {
      InitialCounts(ss, ls, k);
    } else {
      ResetsCountReturns(ss, ls, k, n - 1);
      TracksAcross(ss, ls, n - 1, k);
      HistoryStep(ss, ls, k, n);
      CountsAcross(ss[n - 1].v, ss[n].v, k, History(ss, ls, k, n - 1), Observe(ss[n - 1], ls[n - 1], k));
    }
  }

  predicate SeenIn(h: seq<Observation>, i: nat)
    requires i <= |h|
  {
    exists j :: 0 <= j < i && h[j].Seen?
  }

  /** The indices at which a device found earlier was found again on USB after being away. */
  function Comebacks(h: seq<Observation>): set<nat> {
    set i | i in Returns(h) && SeenIn(h, i)
  }

  /** The device was known before any scan found it, and the first to find it found it on USB. */
  ghost predicate FirstSeenAsPlaceholder(h: seq<Observation>) { exists i: nat :: EndsPlaceholder(h, i) }

  ghost predicate EndsPlaceholder(h: seq<Observation>, i: nat) {
    i < |h| && h[i] == Seen(true) && !SeenIn(h, i) && exists j :: 0 <= j < i && h[j] != Nothing
  }

  lemma {:induction false} LatestOccurs(h: seq<Observation>)
    ensures Latest(h) != Nothing <==> exists j :: 0 <= j < |h| && h[j] != Nothing
    ensures Latest(h) != Nothing ==> Latest(h) in h
  {
    if h != [] {
      var init := h[..|h| - 1];
      LatestOccurs(init);
      assert h == init + [h[|h| - 1]];
      forall j | 0 <= j < |init| ensures init[j] == h[j] {}
    }
  }

  lemma UnseenReturn(h: seq<Observation>, i: nat)
    requires i < |h|
    ensures i in Returns(h) && !SeenIn(h, i) <==> EndsPlaceholder(h, i)
  {
    var before := h[..i];
    LatestOccurs(before);
    forall j | 0 <= j < i ensures before[j] == h[j] {}
    if Latest(before).Seen? {
      var j :| 0 <= j < |before| && before[j] == Latest(before);
      assert h[j].Seen?;
    }
    hide Latest;
  }

  /** Every return is a comeback, save the first sighting of a device known before it was ever found. */
  lemma ReturnsAreComebacks(h: seq<Observation>)
    ensures |Returns(h)| == |Comebacks(h)| + if FirstSeenAsPlaceholder(h) then 1 else 0
  {
    hide Returns, EndsPlaceholder;
    forall i | i in Returns(h) ensures i < |h| { InRange(h, i); }
    if i: nat :| EndsPlaceholder(h, i) {
      PlaceholderEnds(h, i);
      UnseenReturn(h, i);
      forall j | j in Returns(h) && !SeenIn(h, j) ensures j == i {
        UnseenReturn(h, j);
        PlaceholderEndsOnce(h, i, j);
      }
      assert Returns(h) == Comebacks(h) + {i};
    } else {
      forall j | j in Returns(h) ensures SeenIn(h, j) { UnseenReturn(h, j); }
      assert Returns(h) == Comebacks(h);
    }
  }

  lemma InRange(h: seq<Observation>, i: nat)
    requires i in Returns(h)
    ensures i < |h|
  {
  }

  lemma PlaceholderEnds(h: seq<Observation>, i: nat)
    requires EndsPlaceholder(h, i)
    ensures i < |h| && h[i].Seen? && !SeenIn(h, i)
  {
  }

  lemma PlaceholderEndsOnce(h: seq<Observation>, i: nat, j: nat)
    requires EndsPlaceholder(h, i) && EndsPlaceholder(h, j)
    ensures i == j
  {
    hide EndsPlaceholder;
    PlaceholderEnds(h, i);
    PlaceholderEnds(h, j);
  }

  /** The reset count is the number of times the device vanished and came back exactly when it did not
      start as a placeholder found on USB: that first sighting is counted too. */
  lemma ResetsAreComebacksIff(ss: seq<Sys>, ls: seq<Label>, k: Key, n: nat)
    requires Run(ss, ls) && n <= |ls| && n < |ss| && k in ss[n].v.devices
    ensures var h := History(ss, ls, k, n);
            && ss[n].v.devices[k].resets == |Comebacks(h)| + (if FirstSeenAsPlaceholder(h) then 1 else 0)
            && (ss[n].v.devices[k].resets == |Comebacks(h)| <==> !FirstSeenAsPlaceholder(h))
  {
    hide Run, Returns, Comebacks, History, FirstSeenAsPlaceholder, Latest;
    ResetsCountReturns(ss, ls, k, n);
    ReturnsAreComebacks(History(ss, ls, k, n));
  }
}
