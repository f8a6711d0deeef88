// The agent core as a transition system (internal/agent/core.go, monitor.go).
//
// Every locked section is one step and every unlocked action between two locked
// sections is a step of its own, so any other step may fall in between. The
// calls that finish a longer operation (closing an orphan after a rescan, the
// close of ReleaseDevice or CloseAll, a monitor start) are ordinary steps that
// may happen at any time, which covers every interleaving of the callers.
module AgentSystem {
  import opened Prelude
  import opened Registry
  import Names

  /** Where an OpenSession call stands after its claim. */
  datatype Phase = Waiting | Looked(monitor: Option<nat>) | Holding(handle: Handle)

  datatype Opening = Opening(uuid: Uuid, wordId: string, phase: Phase)

  /** A startMonitor call between its two locked sections; port is set once the hardware is open. */
  datatype Starting = Starting(uuid: Uuid, port: Option<nat>)

  datatype MonitorStatus = Running(uuid: Uuid) | Stopping | Finished

  datatype Monitor = Monitor(port: nat, status: MonitorStatus, closed: bool, pumpDied: bool)

  /** Who is responsible for a port the opener has returned. */
  datatype Owner =
    | ByOpen(sid: Sid)
    | BySession(sid: Sid)
    | ByStart(tid: nat)
    | ByMonitor(mid: nat)
    | ByStopper(mid: nat)
    | ByCloser
    | Closed
    | Abandoned(mid: nat)

  /** closes[p] counts the Close calls port p has received; owner is bookkeeping for the proofs. */
  datatype Sys = Sys(
    words: Names.Words,
    v: View,
    opens: map<Sid, Opening>,
    used: set<Sid>,
    starts: map<nat, Starting>,
    mons: seq<Monitor>,
    closing: set<nat>,
    closes: seq<nat>,
    owner: seq<Owner>)

  datatype Label =
    | ClaimStep(wordId: string, lines: Lines, sid: Sid)
    | LookupStep(sid: Sid)
    | OpenStep(sid: Sid, ok: bool)
    | RegisterStep(sid: Sid)
    | CloseStep(sid: Sid)
    | UpdateStep(uuid: Uuid, edit: Edit, saveOk: bool)
    | RenameStep(uuid: Uuid, draws: Names.Draws)
    | ScanStep(ports: seq<PortInfo>, minted: seq<Identity>, saveOk: bool)
    | StartStep(tid: nat, uuid: Uuid)
    | StartOpenStep(tid: nat, ok: bool)
    | StartCommitStep(tid: nat)
    | StopStep(uuid: Uuid)
    | MonitorCloseStep(mid: nat)
    | PumpDiesStep(mid: nat)
    | PortCloseStep(port: nat)

  // ---- Steps ----

  ghost predicate FreshIdentities(cfg: map<Key, Rec>, minted: seq<Identity>) {
    && (forall i | 0 <= i < |minted| :: minted[i].uuid !in UuidsOf(cfg))
    && (forall i, j | 0 <= i < j < |minted| :: minted[i].uuid != minted[j].uuid)
  }

  /** When a step can happen. Session ids and device uuids are never minted twice. */
  ghost predicate Enabled(s: Sys, l: Label) {
    match l
    case ClaimStep(_, _, sid) => sid !in s.used
    case LookupStep(sid) => sid in s.opens && s.opens[sid].phase.Waiting?
    case OpenStep(sid, ok) =>
      && sid in s.opens && s.opens[sid].phase.Looked?
      && (s.opens[sid].phase.monitor.Some? ==> ok)
    case RegisterStep(sid) => sid in s.opens && s.opens[sid].phase.Holding?
    case CloseStep(_) => true
    case UpdateStep(_, _, _) => true
    case RenameStep(_, _) => true
    case ScanStep(ports, minted, _) => |minted| == |ports| && FreshIdentities(s.v.cfg, minted)
    case StartStep(tid, _) => tid !in s.starts
    case StartOpenStep(tid, _) => tid in s.starts && s.starts[tid].port.None?
    case StartCommitStep(tid) => tid in s.starts && s.starts[tid].port.Some?
    case StopStep(_) => true
    case MonitorCloseStep(mid) => mid < |s.mons| && s.mons[mid].status.Stopping?
    case PumpDiesStep(mid) => mid < |s.mons| && !s.mons[mid].closed
    case PortCloseStep(port) => port in s.closing
  }

  function SetOwner(s: Sys, p: nat, o: Owner): Sys {
    if p < |s.owner| then s.(owner := s.owner[p := o]) else s
  }

  function NewPort(s: Sys, o: Owner): Sys {
    s.(closes := s.closes + [0], owner := s.owner + [o])
  }

  /** Hands a port to whoever is about to close it; closing an attached session only detaches it. */
  function Release(s: Sys, h: Handle): Sys {
    match h
    case Direct(p) => SetOwner(s, p, ByCloser).(closing := s.closing + {p})
    case Attached(_) => s
  }

  ghost function AfterClaim(s: Sys, wordId: string, lines: Lines, sid: Sid): Sys {
    match ClaimOutcomeOf(s.v, wordId, lines)
    case Claimed(u, _, _) =>
      s.(v := Claim(s.v, wordId, lines, sid),
         opens := s.opens[sid := Opening(u, wordId, Waiting)], used := s.used + {sid})
    case _ => s
  }

  function AfterOpen(s: Sys, sid: Sid, ok: bool): Sys
    requires sid in s.opens && s.opens[sid].phase.Looked?
  {
    var o := s.opens[sid];
    match o.phase.monitor
    case Some(m) => s.(opens := s.opens[sid := o.(phase := Holding(Attached(m)))])
    case None =>
      if ok
      then NewPort(s.(opens := s.opens[sid := o.(phase := Holding(Direct(|s.owner|)))]), ByOpen(sid))
      else s.(v := DropClaim(s.v, o.uuid), opens := s.opens - {sid})
  }

  ghost function AfterRegister(s: Sys, sid: Sid): Sys
    requires sid in s.opens && s.opens[sid].phase.Holding?
  {
    var o := s.opens[sid];
    var h := o.phase.handle;
    var next := s.(v := Register(s.v, sid, Session(o.uuid, o.wordId, h)), opens := s.opens - {sid});
    if RegisterSucceeds(s.v, sid, o.uuid)
    then (match h case Direct(p) => SetOwner(next, p, BySession(sid)) case Attached(_) => next)
    else Release(next, h)
  }

  function AfterClose(s: Sys, sid: Sid): Sys {
    if sid in s.v.sessions
    then Release(s.(v := CloseSession(s.v, sid)), s.v.sessions[sid].handle)
    else s
  }

  ghost function AfterStart(s: Sys, tid: nat, u: Uuid): Sys {
    var next := s.(v := StartCheck(s.v, u));
    if StartPath(s.v, u).Some? then next.(starts := s.starts[tid := Starting(u, None)]) else next
  }

  function AfterStartOpen(s: Sys, tid: nat, ok: bool): Sys
    requires tid in s.starts
  {
    if ok
    then NewPort(s.(starts := s.starts[tid := s.starts[tid].(port := Some(|s.owner|))]), ByStart(tid))
    else s.(starts := s.starts - {tid})
  }

  function AfterStartCommit(s: Sys, tid: nat): Sys
    requires tid in s.starts && s.starts[tid].port.Some?
  {
    var u, p := s.starts[tid].uuid, s.starts[tid].port.value;
    var next := s.(starts := s.starts - {tid}, v := StartCommit(s.v, u, |s.mons|));
    if u in s.v.monitors then Release(next, Direct(p))
    else SetOwner(next.(mons := s.mons + [Monitor(p, Running(u), false, false)]), p, ByMonitor(|s.mons|))
  }

  ghost function AfterStop(s: Sys, u: Uuid): Sys {
    var next := s.(v := StopMonitor(s.v, u));
    if u in s.v.monitors && s.v.monitors[u] < |s.mons|
    then
      var m := s.v.monitors[u];
      SetOwner(next.(mons := s.mons[m := s.mons[m].(status := Stopping)]), s.mons[m].port, ByStopper(m))
    else next
  }

  /** monitor.Close returns early, without closing the port, when the pump has already died. */
  function AfterMonitorClose(s: Sys, m: nat): Sys
    requires m < |s.mons|
  {
    var mon := s.mons[m];
    var next := s.(mons := s.mons[m := mon.(status := Finished, closed := true)]);
    if mon.closed then SetOwner(next, mon.port, Abandoned(m)) else Release(next, Direct(mon.port))
  }

  function AfterPortClose(s: Sys, p: nat): Sys {
    if p < |s.closes|
    then SetOwner(s.(closing := s.closing - {p}, closes := s.closes[p := s.closes[p] + 1]), p, Closed)
    else s
  }

  ghost function Step(s: Sys, l: Label): Sys
    requires s.words.WellFormed() && Enabled(s, l)
  {
    match l
    case ClaimStep(wordId, lines, sid) => AfterClaim(s, wordId, lines, sid)
    case LookupStep(sid) =>
      var o := s.opens[sid];
      var m := if o.uuid in s.v.monitors then Some(s.v.monitors[o.uuid]) else None;
      s.(opens := s.opens[sid := o.(phase := Looked(m))])
    case OpenStep(sid, ok) => AfterOpen(s, sid, ok)
    case RegisterStep(sid) => AfterRegister(s, sid)
    case CloseStep(sid) => AfterClose(s, sid)
    case UpdateStep(u, e, _) => s.(v := UpdateRec(s.v, u, e))
    case RenameStep(u, draws) => s.(v := Rename(s.v, s.words, u, draws))
    case ScanStep(ports, minted, saveOk) => s.(v := Scan(s.v, s.words, ports, minted, saveOk).0)
    case StartStep(tid, u) => AfterStart(s, tid, u)
    case StartOpenStep(tid, ok) => AfterStartOpen(s, tid, ok)
    case StartCommitStep(tid) => AfterStartCommit(s, tid)
    case StopStep(u) => AfterStop(s, u)
    case MonitorCloseStep(m) => AfterMonitorClose(s, m)
    case PumpDiesStep(m) => s.(mons := s.mons[m := s.mons[m].(closed := true, pumpDied := true)])
    case PortCloseStep(p) => AfterPortClose(s, p)
  }

  ghost predicate Init(s: Sys) {
    && s.words.WellFormed() && DistinctIds(s.v.cfg)
    && s.v == View(s.v.cfg, map[], map[], map[], map[])
    && s.opens == map[] && s.used == {} && s.starts == map[]
    && s.mons == [] && s.closing == {} && s.closes == [] && s.owner == []
  }

  /** A run: states linked by enabled steps, from an initial state. */
  ghost predicate Run(ss: seq<Sys>, ls: seq<Label>) {
    && |ss| == |ls| + 1
    && Init(ss[0])
    && forall i | 0 <= i < |ls| :: Linked(ss[i], ls[i], ss[i + 1])
  }

  ghost predicate Linked(s: Sys, l: Label, t: Sys) {
    s.words.WellFormed() && Enabled(s, l) && t == Step(s, l)
  }

  // ---- Invariants ----

  ghost predicate OpenHas(s: Sys, u: Uuid)
    requires u in s.v.claims
  {
    s.v.claims[u] in s.opens && s.opens[s.v.claims[u]].uuid == u
  }

  ghost predicate SessionHas(s: Sys, u: Uuid)
    requires u in s.v.claims
  {
    s.v.claims[u] in s.v.sessions && s.v.sessions[s.v.claims[u]].uuid == u
  }

  /** Claims are the disjoint union of in-flight opens and registered sessions. */
  ghost predicate ClaimsConserved(s: Sys) {
    && (forall sid | sid in s.opens ::
          sid in s.used && sid !in s.v.sessions && StillOurs(s.v, s.opens[sid].uuid, sid))
    && (forall sid | sid in s.v.sessions :: sid in s.used && StillOurs(s.v, s.v.sessions[sid].uuid, sid))
    && (forall u | u in s.v.claims :: OpenHas(s, u) || SessionHas(s, u))
  }

  ghost predicate MonitorsTracked(s: Sys) {
    && (forall u | u in s.v.monitors :: s.v.monitors[u] < |s.mons| && s.mons[s.v.monitors[u]].status == Running(u))
    && (forall m | 0 <= m < |s.mons| && s.mons[m].status.Running? ::
          s.mons[m].status.uuid in s.v.monitors && s.v.monitors[s.mons[m].status.uuid] == m)
    && (forall m | 0 <= m < |s.mons| ::
          if s.mons[m].status.Finished? then s.mons[m].closed else s.mons[m].closed == s.mons[m].pumpDied)
  }

  ghost predicate Owns(s: Sys, o: Owner, p: nat) { p < |s.owner| && s.owner[p] == o }

  /** Reads off the live state whether o currently holds port p. */
  ghost predicate Holds(s: Sys, o: Owner, p: nat)
    requires p < |s.closes|
  {
    match o
    case ByOpen(sid) => sid in s.opens && s.opens[sid].phase == Holding(Direct(p))
    case BySession(sid) => sid in s.v.sessions && s.v.sessions[sid].handle == Direct(p)
    case ByStart(t) => t in s.starts && s.starts[t].port == Some(p)
    case ByMonitor(m) => m < |s.mons| && s.mons[m].port == p && s.mons[m].status.Running?
    case ByStopper(m) => m < |s.mons| && s.mons[m].port == p && s.mons[m].status.Stopping?
    case ByCloser => p in s.closing
    case Closed => s.closes[p] > 0
    case Abandoned(m) => m < |s.mons| && s.mons[m].port == p && s.mons[m].status.Finished? && s.mons[m].pumpDied
  }

  function MonitorOwner(m: nat, mon: Monitor): Option<Owner> {
    match mon.status
    case Running(_) => Some(ByMonitor(m))
    case Stopping => Some(ByStopper(m))
    case Finished => if mon.pumpDied then Some(Abandoned(m)) else None
  }

  ghost predicate PortsTracked(s: Sys) {
    && |s.closes| == |s.owner|
    && (forall p | 0 <= p < |s.owner| :: Holds(s, s.owner[p], p))
    && (forall p | 0 <= p < |s.owner| :: s.closes[p] == if s.owner[p] == Closed then 1 else 0)
    && (forall sid | sid in s.opens && s.opens[sid].phase.Holding? && s.opens[sid].phase.handle.Direct? ::
          Owns(s, ByOpen(sid), s.opens[sid].phase.handle.port))
    && (forall sid | sid in s.v.sessions && s.v.sessions[sid].handle.Direct? ::
          Owns(s, BySession(sid), s.v.sessions[sid].handle.port))
    && (forall t | t in s.starts && s.starts[t].port.Some? :: Owns(s, ByStart(t), s.starts[t].port.value))
    && (forall m | 0 <= m < |s.mons| && MonitorOwner(m, s.mons[m]).Some? ::
          Owns(s, MonitorOwner(m, s.mons[m]).value, s.mons[m].port))
    && (forall p | p in s.closing :: Owns(s, ByCloser, p))
  }

  ghost predicate Inv(s: Sys) {
    && s.words.WellFormed()
    && WellFormed(s.v)
    && ClaimsConserved(s)
    && MonitorsTracked(s)
    && PortsTracked(s)
  }

  lemma InvWords(s: Sys)
    requires Inv(s)
    ensures s.words.WellFormed()
  {
  }

  // ---- Registry well-formedness is kept ----

  lemma WithDeviceKeeps(v: View, u: Uuid)
    requires WellFormed(v)
    ensures WellFormed(WithDevice(v, u)) && WithDevice(v, u).cfg == v.cfg
    ensures KeyOf(v.cfg, u).Some? ==> KeyOf(v.cfg, u).value in WithDevice(v, u).devices
  {
  }

  lemma PutRecKeeps(v: View, k: Key, r: Rec)
    requires WellFormed(v) && k in v.devices && r.uuid == v.cfg[k].uuid
    requires r.wordId == v.cfg[k].wordId || r.wordId !in WordsOf(v.cfg)
    ensures WellFormed(PutRec(v, k, r))
  {
    forall a | a in v.cfg ensures v.cfg[a].wordId in WordsOf(v.cfg) {}
  }

  lemma AddRecKeeps(cfg: map<Key, Rec>, k: Key, r: Rec)
    requires DistinctIds(cfg) && k !in cfg && r.uuid !in UuidsOf(cfg) && r.wordId !in WordsOf(cfg)
    ensures DistinctIds(cfg[k := r]) && UuidsOf(cfg[k := r]) == UuidsOf(cfg) + {r.uuid}
  {
    var after := cfg[k := r];
    forall a | a in cfg ensures cfg[a].wordId in WordsOf(cfg) && cfg[a].uuid in UuidsOf(cfg) {}
    assert forall u | u in UuidsOf(after) :: u in UuidsOf(cfg) + {r.uuid};
    forall u | u in UuidsOf(cfg) + {r.uuid} ensures u in UuidsOf(after) {
      if u == r.uuid {
        assert after[k].uuid == u;
      } else {
        var a :| a in cfg && cfg[a].uuid == u;
        assert after[a].uuid == u;
      }
    }
  }

  lemma ReconcilePortKeeps(v: View, w: Names.Words, p: PortInfo, f: Identity)
    requires w.WellFormed() && WellFormed(v)
    requires p.key in v.cfg || f.uuid !in UuidsOf(v.cfg)
    requires ReconcilePort(v, w, p, f).Some?
    ensures WellFormed(ReconcilePort(v, w, p, f).value)
    ensures UuidsOf(ReconcilePort(v, w, p, f).value.cfg) <= UuidsOf(v.cfg) + {f.uuid}
  {
    var t := ReconcilePort(v, w, p, f).value;
    if p.key in v.cfg {
      assert t.cfg == v.cfg;
    } else {
      Names.GeneratedIsValidAndFree(w, f.draws, WordsOf(v.cfg));
      AddRecKeeps(v.cfg, p.key, t.cfg[p.key]);
    }
  }

  ghost function MintedUuids(minted: seq<Identity>, n: nat): set<Uuid>
    requires n <= |minted|
  {
    set i | 0 <= i < n :: minted[i].uuid
  }

  lemma {:induction false} ReconcileKeeps(v: View, w: Names.Words, ports: seq<PortInfo>, minted: seq<Identity>, n: nat)
    requires w.WellFormed() && WellFormed(v) && |minted| == |ports| && n <= |ports|
    requires FreshIdentities(v.cfg, minted)
    ensures WellFormed(Reconcile(v, w, ports, minted, n).0)
    ensures UuidsOf(Reconcile(v, w, ports, minted, n).0.cfg) <= UuidsOf(v.cfg) + MintedUuids(minted, n)
  {
    if n > 0 {
      ReconcileKeeps(v, w, ports, minted, n - 1);
      var (u, ok) := Reconcile(v, w, ports, minted, n - 1);
      assert MintedUuids(minted, n) == MintedUuids(minted, n - 1) + {minted[n - 1].uuid};
      if ok && ReconcilePort(u, w, ports[n - 1], minted[n - 1]).Some? {
        ReconcilePortKeeps(u, w, ports[n - 1], minted[n - 1]);
      }
    }
  }

  lemma {:induction false} ReconcileFrame(v: View, w: Names.Words, ports: seq<PortInfo>, minted: seq<Identity>, n: nat)
    requires w.WellFormed() && |minted| == |ports| && n <= |ports|
    ensures var u := Reconcile(v, w, ports, minted, n).0;
            u.sessions == v.sessions && u.claims == v.claims && u.monitors == v.monitors
  {
    if n > 0 { ReconcileFrame(v, w, ports, minted, n - 1); }
  }

  lemma UpdateKeeps(v: View, u: Uuid, e: Edit)
    requires WellFormed(v)
    ensures WellFormed(UpdateRec(v, u, e))
  {
    hide WithDevice, WellFormed, PutRec, WordsOf;
    if k :| KeyOf(v.cfg, u) == Some(k) {
      WithDeviceKeeps(v, u);
      PutRecKeeps(WithDevice(v, u), k, ApplyEdit(v.cfg[k], e));
    }
  }

  lemma RenameKeeps(v: View, w: Names.Words, u: Uuid, draws: Names.Draws)
    requires w.WellFormed() && WellFormed(v)
    ensures WellFormed(Rename(v, w, u, draws))
  {
    WithDeviceKeeps(v, u);
    Names.GeneratedIsValidAndFree(w, draws, WordsOf(v.cfg));
    var id := Names.Generated(w, draws, WordsOf(v.cfg));
    if k :| KeyOf(v.cfg, u) == Some(k) && id.Some? {
      PutRecKeeps(WithDevice(v, u), k, v.cfg[k].(wordId := id.value));
    }
  }

  lemma ScanKeeps(v: View, w: Names.Words, ports: seq<PortInfo>, minted: seq<Identity>, saveOk: bool)
    requires w.WellFormed() && WellFormed(v) && |minted| == |ports| && FreshIdentities(v.cfg, minted)
    ensures WellFormed(Scan(v, w, ports, minted, saveOk).0)
  {
    ReconcileKeeps(v, w, ports, minted, |ports|);
  }

  ghost predicate SameRegistry(s: Sys, t: Sys) { t.v.cfg == s.v.cfg && t.v.devices == s.v.devices }

  lemma ClaimKeepsRegistry(s: Sys, wordId: string, lines: Lines, sid: Sid)
    ensures SameRegistry(s, AfterClaim(s, wordId, lines, sid))
  {
    hide ClaimOutcomeOf;
  }

  lemma RegisterKeepsRegistry(s: Sys, sid: Sid)
    requires sid in s.opens && s.opens[sid].phase.Holding?
    ensures SameRegistry(s, AfterRegister(s, sid))
  {
    hide RegisterSucceeds;
  }

  lemma SessionStepsKeepRegistry(s: Sys, l: Label)
    requires s.words.WellFormed() && Enabled(s, l)
    requires l.ClaimStep? || l.LookupStep? || l.OpenStep? || l.RegisterStep? || l.CloseStep?
    ensures SameRegistry(s, Step(s, l))
  {
    hide AfterClaim, AfterRegister;
    if l.ClaimStep? {
      ClaimKeepsRegistry(s, l.wordId, l.lines, l.sid);
    } else if l.RegisterStep? {
      RegisterKeepsRegistry(s, l.sid);
    }
  }

  lemma PortStepsKeepRegistry(s: Sys, l: Label)
    requires s.words.WellFormed() && Enabled(s, l)
    requires l.StartOpenStep? || l.StartCommitStep? || l.MonitorCloseStep? || l.PumpDiesStep? || l.PortCloseStep?
    ensures SameRegistry(s, Step(s, l))
  {
  }

  lemma OtherStepsKeepRegistry(s: Sys, l: Label)
    requires s.words.WellFormed() && Enabled(s, l)
    requires !l.UpdateStep? && !l.RenameStep? && !l.ScanStep? && !l.StartStep? && !l.StopStep?
    ensures SameRegistry(s, Step(s, l))
  {
    hide Step;
    if l.ClaimStep? || l.LookupStep? || l.OpenStep? || l.RegisterStep? || l.CloseStep? {
      SessionStepsKeepRegistry(s, l);
    } else {
      PortStepsKeepRegistry(s, l);
    }
  }

  lemma StepKeepsRegistry(s: Sys, l: Label)
    requires s.words.WellFormed() && Enabled(s, l) && WellFormed(s.v)
    ensures WellFormed(Step(s, l).v)
  {
    hide UpdateRec, Rename, Scan, WithDevice;
    if l.UpdateStep? {
      hide WellFormed;
      UpdateKeeps(s.v, l.uuid, l.edit);
    } else if l.RenameStep? {
      hide WellFormed;
      RenameKeeps(s.v, s.words, l.uuid, l.draws);
    } else if l.ScanStep? {
      hide WellFormed;
      ScanKeeps(s.v, s.words, l.ports, l.minted, l.saveOk);
    } else if l.StartStep? || l.StopStep? {
      WithDeviceKeeps(s.v, l.uuid);
      MonitorsAreApart(WithDevice(s.v, l.uuid), s.v.monitors - {l.uuid});
      hide WellFormed;
    } else {
      OtherStepsKeepRegistry(s, l);
      SameRegistryKeeps(s, Step(s, l));
      hide WellFormed, Step;
    }
  }

  lemma MonitorsAreApart(v: View, monitors: map<Uuid, nat>)
    requires WellFormed(v)
    ensures WellFormed(v.(monitors := monitors))
  {
  }

  lemma SameRegistryKeeps(s: Sys, t: Sys)
    requires SameRegistry(s, t) && WellFormed(s.v)
    ensures WellFormed(t.v)
  {
  }

  // ---- Registry steps leave the tables alone ----

  predicate SameTables(v: View, t: View) {
    t.sessions == v.sessions && t.claims == v.claims && t.monitors == v.monitors
  }

  predicate RegistryOnly(l: Label) { l.UpdateStep? || l.RenameStep? || l.ScanStep? }

  lemma RegistryFrame(s: Sys, l: Label)
    requires s.words.WellFormed() && Enabled(s, l) && RegistryOnly(l)
    ensures Step(s, l) == s.(v := Step(s, l).v) && SameTables(s.v, Step(s, l).v)
  {
    if l.ScanStep? { ReconcileFrame(s.v, s.words, l.ports, l.minted, |l.ports|); }
  }

  lemma RegisterStepIs(s: Sys, sid: Sid)
    requires s.words.WellFormed() && Enabled(s, RegisterStep(sid))
    ensures Step(s, RegisterStep(sid)) == AfterRegister(s, sid) && sid in s.opens && s.opens[sid].phase.Holding?
  {
    hide AfterRegister;
  }

  // ---- Claims are conserved ----

  /** stillOurs never fails: the claim of an in-flight open is only ever dropped by that open. */
  lemma RegisterFindsItsClaim(s: Sys, sid: Sid)
    requires ClaimsConserved(s) && sid in s.opens
    ensures StillOurs(s.v, s.opens[sid].uuid, sid)
    ensures RegisterSucceeds(s.v, sid, s.opens[sid].uuid) <==> Exposed(s.v, s.opens[sid].uuid)
  {
  }

  lemma RemovalKeepsClaims(s: Sys, t: Sys, sid: Sid, u: Uuid)
    requires ClaimsConserved(s) && u in s.v.claims && s.v.claims[u] == sid
    requires t.v.claims == s.v.claims - {u} && t.used == s.used
    requires t.opens == s.opens - {sid} && t.v.sessions == s.v.sessions - {sid}
    ensures ClaimsConserved(t)
  {
    forall w | w in t.v.claims ensures OpenHas(t, w) || SessionHas(t, w) {
      assert OpenHas(s, w) || SessionHas(s, w);
      assert OpenHas(s, u) || SessionHas(s, u);
    }
    forall x | x in t.opens ensures StillOurs(t.v, t.opens[x].uuid, x) {
      assert StillOurs(s.v, s.opens[x].uuid, x);
    }
    forall x | x in t.v.sessions ensures StillOurs(t.v, t.v.sessions[x].uuid, x) {
      assert StillOurs(s.v, s.v.sessions[x].uuid, x);
    }
  }

  /** Claims, sessions and the opens' devices are as they were. */
  ghost predicate SameClaims(s: Sys, t: Sys) {
    && t.v.sessions == s.v.sessions && t.v.claims == s.v.claims && t.used == s.used
    && t.opens.Keys == s.opens.Keys
    && forall sid | sid in s.opens :: t.opens[sid].uuid == s.opens[sid].uuid
  }

  lemma SameClaimsKeep(s: Sys, t: Sys)
    requires ClaimsConserved(s) && SameClaims(s, t)
    ensures ClaimsConserved(t)
  {
    forall w | w in t.v.claims ensures OpenHas(t, w) || SessionHas(t, w) {
      assert OpenHas(s, w) || SessionHas(s, w);
    }
    forall x | x in t.opens ensures StillOurs(t.v, t.opens[x].uuid, x) {
      assert StillOurs(s.v, s.opens[x].uuid, x);
    }
  }

  /** What a successful claim has checked. */
  lemma ClaimedMeans(v: View, wordId: string, lines: Lines)
    requires ClaimOutcomeOf(v, wordId, lines).Claimed?
    ensures var u := ClaimOutcomeOf(v, wordId, lines).uuid;
            u !in v.claims && |v.sessions| < MAX_SESSIONS && Exposed(v, u) && Online(v, u)
  {
    var k := KeyNamed(v, wordId).value;
    assert v.devices[k].rec.exposed && v.devices[k].online;
  }

  lemma AdditionKeepsClaims(s: Sys, t: Sys, sid: Sid, o: Opening)
    requires ClaimsConserved(s) && o.uuid !in s.v.claims && sid !in s.used
    requires t.v.claims == s.v.claims[o.uuid := sid] && t.used == s.used + {sid}
    requires t.opens == s.opens[sid := o] && t.v.sessions == s.v.sessions
    ensures ClaimsConserved(t)
  {
    forall w | w in t.v.claims ensures OpenHas(t, w) || SessionHas(t, w) {
      if w != o.uuid { assert OpenHas(s, w) || SessionHas(s, w); }
    }
  }

  lemma ClaimConserves(s: Sys, wordId: string, lines: Lines, sid: Sid)
    requires ClaimsConserved(s) && sid !in s.used
    ensures ClaimsConserved(AfterClaim(s, wordId, lines, sid))
  {
    if ClaimOutcomeOf(s.v, wordId, lines).Claimed? {
      var u := ClaimOutcomeOf(s.v, wordId, lines).uuid;
      ClaimedMeans(s.v, wordId, lines);
      hide ClaimsConserved, ClaimOutcomeOf, Exposed, Online;
      AdditionKeepsClaims(s, AfterClaim(s, wordId, lines, sid), sid, Opening(u, wordId, Waiting));
    }
  }

  lemma OpenConserves(s: Sys, sid: Sid, ok: bool)
    requires ClaimsConserved(s) && sid in s.opens && s.opens[sid].phase.Looked?
    ensures ClaimsConserved(AfterOpen(s, sid, ok))
  {
    if s.opens[sid].phase.monitor.None? && !ok {
      assert s.v.sessions - {sid} == s.v.sessions;
      RemovalKeepsClaims(s, AfterOpen(s, sid, ok), sid, s.opens[sid].uuid);
    } else {
      SameClaimsKeep(s, AfterOpen(s, sid, ok));
    }
  }

  lemma PromotionKeepsClaims(s: Sys, t: Sys, sid: Sid, x: Session)
    requires ClaimsConserved(s) && sid in s.opens && x.uuid == s.opens[sid].uuid
    requires t.v.claims == s.v.claims && t.used == s.used
    requires t.opens == s.opens - {sid} && t.v.sessions == s.v.sessions[sid := x]
    ensures ClaimsConserved(t)
  {
    forall w | w in t.v.claims ensures OpenHas(t, w) || SessionHas(t, w) {
      assert OpenHas(s, w) || SessionHas(s, w);
    }
  }

  lemma RegisterConserves(s: Sys, sid: Sid)
    requires ClaimsConserved(s) && sid in s.opens && s.opens[sid].phase.Holding?
    ensures ClaimsConserved(AfterRegister(s, sid))
  {
    var t := AfterRegister(s, sid);
    var o := s.opens[sid];
    RegisterFindsItsClaim(s, sid);
    if RegisterSucceeds(s.v, sid, o.uuid) {
      hide ClaimsConserved, RegisterSucceeds;
      PromotionKeepsClaims(s, t, sid, Session(o.uuid, o.wordId, o.phase.handle));
    } else {
      assert s.v.sessions - {sid} == s.v.sessions;
      hide ClaimsConserved, RegisterSucceeds;
      RemovalKeepsClaims(s, t, sid, o.uuid);
    }
  }

  lemma CloseConserves(s: Sys, sid: Sid)
    requires ClaimsConserved(s)
    ensures ClaimsConserved(AfterClose(s, sid))
  {
    if sid in s.v.sessions {
      assert s.opens - {sid} == s.opens;
      RemovalKeepsClaims(s, AfterClose(s, sid), sid, s.v.sessions[sid].uuid);
    }
  }

  lemma OtherStepsKeepClaims(s: Sys, l: Label)
    requires s.words.WellFormed() && Enabled(s, l)
    requires !l.ClaimStep? && !l.OpenStep? && !l.RegisterStep? && !l.CloseStep?
    ensures SameClaims(s, Step(s, l))
  {
    if RegistryOnly(l) {
      RegistryFrame(s, l);
      hide Step;
    } else {
      hide Step, SameClaims;
      DeviceStepsKeepClaims(s, l);
    }
  }

  lemma DeviceStepsKeepClaims(s: Sys, l: Label)
    requires s.words.WellFormed() && Enabled(s, l) && !RegistryOnly(l)
    requires !l.ClaimStep? && !l.OpenStep? && !l.RegisterStep? && !l.CloseStep?
    ensures SameClaims(s, Step(s, l))
  {
    hide Step, SameClaims;
    if l.StartStep? || l.StopStep? {
      MonitorStepsKeepClaims(s, l);
    } else if l.LookupStep? || l.StartOpenStep? || l.StartCommitStep? {
      StartStepsKeepClaims(s, l);
    } else {
      PortStepsKeepClaims(s, l);
    }
  }

  lemma MonitorStepsKeepClaims(s: Sys, l: Label)
    requires s.words.WellFormed() && Enabled(s, l) && (l.StartStep? || l.StopStep?)
    ensures SameClaims(s, Step(s, l))
  {
    WithDeviceFrame(s.v, l.uuid);
    hide WithDevice, StartPath;
  }

  lemma StartStepsKeepClaims(s: Sys, l: Label)
    requires s.words.WellFormed() && Enabled(s, l) && (l.LookupStep? || l.StartOpenStep? || l.StartCommitStep?)
    ensures SameClaims(s, Step(s, l))
  {
  }

  lemma PortStepsKeepClaims(s: Sys, l: Label)
    requires s.words.WellFormed() && Enabled(s, l)
    requires l.MonitorCloseStep? || l.PumpDiesStep? || l.PortCloseStep?
    ensures SameClaims(s, Step(s, l))
  {
  }

  lemma StepConservesClaims(s: Sys, l: Label)
    requires s.words.WellFormed() && Enabled(s, l) && ClaimsConserved(s)
    ensures ClaimsConserved(Step(s, l))
  {
    hide ClaimsConserved, AfterClaim, AfterOpen, AfterRegister, AfterClose;
    if l.ClaimStep? {
      ClaimConserves(s, l.wordId, l.lines, l.sid);
    } else if l.OpenStep? {
      OpenConserves(s, l.sid, l.ok);
    } else if l.RegisterStep? {
      RegisterConserves(s, l.sid);
    } else if l.CloseStep? {
      CloseConserves(s, l.sid);
    } else {
      OtherStepsKeepClaims(s, l);
      hide Step;
      SameClaimsKeep(s, Step(s, l));
    }
  }

  // ---- Monitors ----

  lemma StoppedTracksMonitors(s: Sys, t: Sys, u: Uuid)
    requires MonitorsTracked(s) && t.v.monitors == s.v.monitors - {u}
    requires if u in s.v.monitors && s.v.monitors[u] < |s.mons|
             then t.mons == s.mons[s.v.monitors[u] := s.mons[s.v.monitors[u]].(status := Stopping)]
             else t.mons == s.mons
    ensures MonitorsTracked(t)
  {
  }

  lemma StopTracksMonitors(s: Sys, u: Uuid)
    requires MonitorsTracked(s)
    ensures MonitorsTracked(AfterStop(s, u))
  {
    WithDeviceFrame(s.v, u);
    hide WithDevice, MonitorsTracked;
    StoppedTracksMonitors(s, AfterStop(s, u), u);
  }

  lemma WithDeviceFrame(v: View, u: Uuid)
    ensures WithDevice(v, u) == v.(devices := WithDevice(v, u).devices)
  {
  }

  lemma OtherStepsKeepMonitors(s: Sys, l: Label)
    requires s.words.WellFormed() && Enabled(s, l)
    requires !l.StartCommitStep? && !l.StopStep? && !l.MonitorCloseStep? && !l.PumpDiesStep?
    ensures Step(s, l).mons == s.mons && Step(s, l).v.monitors == s.v.monitors
  {
    hide AfterStartCommit, AfterStop, AfterMonitorClose, Scan, UpdateRec, Rename, ClaimOutcomeOf, RegisterSucceeds;
    if RegistryOnly(l) {
      RegistryFrame(s, l);
      hide Step;
    } else if l.StartStep? {
      WithDeviceFrame(s.v, l.uuid);
      hide WithDevice;
    }
  }

  lemma InstallTracksMonitors(s: Sys, t: Sys, u: Uuid, p: nat)
    requires MonitorsTracked(s) && u !in s.v.monitors
    requires t.v.monitors == s.v.monitors[u := |s.mons|] && t.mons == s.mons + [Monitor(p, Running(u), false, false)]
    ensures MonitorsTracked(t)
  {
  }

  lemma CommitTracksMonitors(s: Sys, tid: nat)
    requires MonitorsTracked(s) && tid in s.starts && s.starts[tid].port.Some?
    ensures MonitorsTracked(AfterStartCommit(s, tid))
  {
    var u := s.starts[tid].uuid;
    if u !in s.v.monitors {
      hide MonitorsTracked;
      InstallTracksMonitors(s, AfterStartCommit(s, tid), u, s.starts[tid].port.value);
    }
  }

  lemma EndingTracksMonitors(s: Sys, m: nat, ended: Monitor)
    requires MonitorsTracked(s) && m < |s.mons|
    requires ended == s.mons[m].(closed := true, pumpDied := true) ||
             (s.mons[m].status.Stopping? && ended == s.mons[m].(status := Finished, closed := true))
    ensures MonitorsTracked(s.(mons := s.mons[m := ended]))
  {
  }

  lemma MonitorCloseTracksMonitors(s: Sys, m: nat)
    requires MonitorsTracked(s) && m < |s.mons| && s.mons[m].status.Stopping?
    ensures MonitorsTracked(AfterMonitorClose(s, m))
  {
    EndingTracksMonitors(s, m, s.mons[m].(status := Finished, closed := true));
  }

  lemma StepTracksMonitors(s: Sys, l: Label)
    requires s.words.WellFormed() && Enabled(s, l) && MonitorsTracked(s)
    ensures MonitorsTracked(Step(s, l))
  {
    if l.StopStep? {
      hide MonitorsTracked, AfterStop;
      StopTracksMonitors(s, l.uuid);
    } else if l.StartCommitStep? {
      hide MonitorsTracked, AfterStartCommit;
      CommitTracksMonitors(s, l.tid);
    } else if l.MonitorCloseStep? {
      hide MonitorsTracked;
      MonitorCloseTracksMonitors(s, l.mid);
    } else if l.PumpDiesStep? {
      hide MonitorsTracked;
      EndingTracksMonitors(s, l.mid, s.mons[l.mid].(closed := true, pumpDied := true));
    } else {
      hide Step;
      OtherStepsKeepMonitors(s, l);
    }
  }

  // ---- Ports ----

  ghost predicate SameHolders(s: Sys, t: Sys) {
    && t.closes == s.closes && t.owner == s.owner && t.closing == s.closing && t.mons == s.mons
    && t.v.sessions == s.v.sessions
    && (forall i | i in t.starts && t.starts[i].port.Some? :: i in s.starts && t.starts[i] == s.starts[i])
    && (forall i | i in s.starts && s.starts[i].port.Some? :: i in t.starts && t.starts[i] == s.starts[i])
    && (forall i | i in t.opens && t.opens[i].phase.Holding? :: i in s.opens && t.opens[i] == s.opens[i])
    && (forall i | i in s.opens && s.opens[i].phase.Holding? :: i in t.opens && t.opens[i] == s.opens[i])
  }

  lemma SameHoldersKeep(s: Sys, t: Sys)
    requires PortsTracked(s) && SameHolders(s, t)
    ensures PortsTracked(t)
  {
    forall p | 0 <= p < |t.owner| ensures Holds(t, t.owner[p], p) {
      assert Holds(s, s.owner[p], p);
    }
  }

  lemma OpenTracksPorts(s: Sys, sid: Sid, ok: bool)
    requires PortsTracked(s) && sid in s.opens && s.opens[sid].phase.Looked?
    ensures PortsTracked(AfterOpen(s, sid, ok))
  {
    var t := AfterOpen(s, sid, ok);
    forall p | 0 <= p < |t.owner| ensures Holds(t, t.owner[p], p) {
      if p < |s.owner| { assert Holds(s, s.owner[p], p); }
    }
  }

  lemma StartOpenTracksPorts(s: Sys, tid: nat, ok: bool)
    requires PortsTracked(s) && tid in s.starts && s.starts[tid].port.None?
    ensures PortsTracked(AfterStartOpen(s, tid, ok))
  {
    var t := AfterStartOpen(s, tid, ok);
    forall p | 0 <= p < |t.owner| ensures Holds(t, t.owner[p], p) {
      if p < |s.owner| { assert Holds(s, s.owner[p], p); }
    }
  }

  lemma PromotionTracksPorts(s: Sys, t: Sys, sid: Sid, x: Session)
    requires PortsTracked(s) && sid in s.opens && s.opens[sid].phase == Holding(x.handle) && sid !in s.v.sessions
    requires t.opens == s.opens - {sid} && t.v.sessions == s.v.sessions[sid := x]
    requires t.closes == s.closes && t.closing == s.closing && t.mons == s.mons && t.starts == s.starts
    requires x.handle.Attached? ==> t.owner == s.owner
    requires x.handle.Direct? && x.handle.port < |s.owner| ==> t.owner == s.owner[x.handle.port := BySession(sid)]
    ensures PortsTracked(t)
  {
    if x.handle.Direct? { assert Owns(s, ByOpen(sid), x.handle.port); }
    forall p | 0 <= p < |t.owner| ensures Holds(t, t.owner[p], p) {
      PromotionHolds(s, t, sid, x, p);
    }
    hide Holds;
  }

  lemma PromotionHolds(s: Sys, t: Sys, sid: Sid, x: Session, p: nat)
    requires p < |s.owner| == |s.closes| && Holds(s, s.owner[p], p)
    requires sid in s.opens && s.opens[sid].phase == Holding(x.handle) && sid !in s.v.sessions
    requires t.opens == s.opens - {sid} && t.v.sessions == s.v.sessions[sid := x]
    requires t.closes == s.closes && t.closing == s.closing && t.mons == s.mons && t.starts == s.starts
    requires x.handle.Direct? ==> Owns(s, ByOpen(sid), x.handle.port)
    requires t.owner == if x.handle.Direct? then s.owner[x.handle.port := BySession(sid)] else s.owner
    ensures Holds(t, t.owner[p], p)
  {
  }

  // A holder of a direct port lets go of it: the port now waits to be closed.

  lemma AbandonTracksPorts(s: Sys, t: Sys, sid: Sid, h: Handle)
    requires PortsTracked(s) && t.closes == s.closes && t.mons == s.mons && t.starts == s.starts
    requires sid in s.opens && s.opens[sid].phase == Holding(h)
    requires t.opens == s.opens - {sid} && t.v.sessions == s.v.sessions
    requires t.closing == Release(s, h).closing && t.owner == Release(s, h).owner
    ensures PortsTracked(t)
  {
    if h.Direct? { assert Owns(s, ByOpen(sid), h.port); }
    forall p | 0 <= p < |t.owner| ensures Holds(t, t.owner[p], p) {
      AbandonHolds(s, t, sid, h, p);
    }
    hide Holds;
  }

  lemma AbandonHolds(s: Sys, t: Sys, sid: Sid, h: Handle, p: nat)
    requires p < |s.owner| == |s.closes| && Holds(s, s.owner[p], p)
    requires t.closes == s.closes && t.mons == s.mons && t.starts == s.starts && t.v.sessions == s.v.sessions
    requires sid in s.opens && s.opens[sid].phase == Holding(h) && t.opens == s.opens - {sid}
    requires h.Direct? ==> Owns(s, ByOpen(sid), h.port)
    requires t.closing == Release(s, h).closing && t.owner == Release(s, h).owner
    ensures Holds(t, t.owner[p], p)
  {
  }

  lemma DropSessionTracksPorts(s: Sys, t: Sys, sid: Sid, h: Handle)
    requires PortsTracked(s) && t.closes == s.closes && t.mons == s.mons && t.starts == s.starts
    requires sid in s.v.sessions && s.v.sessions[sid].handle == h
    requires t.opens == s.opens && t.v.sessions == s.v.sessions - {sid}
    requires t.closing == Release(s, h).closing && t.owner == Release(s, h).owner
    ensures PortsTracked(t)
  {
    if h.Direct? { assert Owns(s, BySession(sid), h.port); }
    forall p | 0 <= p < |t.owner| ensures Holds(t, t.owner[p], p) {
      DropHolds(s, t, sid, h, p);
    }
    hide Holds;
  }

  lemma DropHolds(s: Sys, t: Sys, sid: Sid, h: Handle, p: nat)
    requires p < |s.owner| == |s.closes| && Holds(s, s.owner[p], p)
    requires t.closes == s.closes && t.mons == s.mons && t.starts == s.starts && t.opens == s.opens
    requires sid in s.v.sessions && s.v.sessions[sid].handle == h && t.v.sessions == s.v.sessions - {sid}
    requires h.Direct? ==> Owns(s, BySession(sid), h.port)
    requires t.closing == Release(s, h).closing && t.owner == Release(s, h).owner
    ensures Holds(t, t.owner[p], p)
  {
  }

  lemma RegisterTracksPorts(s: Sys, sid: Sid)
    requires PortsTracked(s) && ClaimsConserved(s) && sid in s.opens && s.opens[sid].phase.Holding?
    ensures PortsTracked(AfterRegister(s, sid))
  {
    var t := AfterRegister(s, sid);
    var o := s.opens[sid];
    RegisterFindsItsClaim(s, sid);
    assert sid !in s.v.sessions;
    if o.phase.handle.Direct? { assert Owns(s, ByOpen(sid), o.phase.handle.port); }
    if RegisterSucceeds(s.v, sid, o.uuid) {
      hide ClaimsConserved, RegisterSucceeds, PortsTracked;
      PromotionTracksPorts(s, t, sid, Session(o.uuid, o.wordId, o.phase.handle));
    } else {
      hide ClaimsConserved, RegisterSucceeds, PortsTracked;
      AbandonTracksPorts(s, t, sid, o.phase.handle);
    }
  }

  lemma CloseSessionTracksPorts(s: Sys, sid: Sid)
    requires PortsTracked(s) && ClaimsConserved(s)
    ensures PortsTracked(AfterClose(s, sid))
  {
    hide PortsTracked, ClaimsConserved;
    if sid in s.v.sessions {
      var t := AfterClose(s, sid);
      DropSessionTracksPorts(s, t, sid, s.v.sessions[sid].handle);
    }
  }

  lemma LateStartTracksPorts(s: Sys, t: Sys, tid: nat, p: nat)
    requires PortsTracked(s) && tid in s.starts && s.starts[tid].port == Some(p)
    requires t.opens == s.opens && t.v.sessions == s.v.sessions && t.closes == s.closes && t.mons == s.mons
    requires t.starts == s.starts - {tid} && t.closing == s.closing + {p}
    requires p < |s.owner| ==> t.owner == s.owner[p := ByCloser]
    ensures PortsTracked(t)
  {
    assert Owns(s, ByStart(tid), p);
    forall q | 0 <= q < |t.owner| ensures Holds(t, t.owner[q], q) {
      assert Holds(s, s.owner[q], q);
    }
  }

  lemma InstallTracksPorts(s: Sys, t: Sys, tid: nat, p: nat, u: Uuid)
    requires PortsTracked(s) && tid in s.starts && s.starts[tid].port == Some(p)
    requires t.opens == s.opens && t.v.sessions == s.v.sessions && t.closes == s.closes && t.closing == s.closing
    requires t.starts == s.starts - {tid} && t.mons == s.mons + [Monitor(p, Running(u), false, false)]
    requires p < |s.owner| ==> t.owner == s.owner[p := ByMonitor(|s.mons|)]
    ensures PortsTracked(t)
  {
    assert Owns(s, ByStart(tid), p);
    forall q | 0 <= q < |t.owner| ensures Holds(t, t.owner[q], q) {
      InstallHolds(s, t, tid, p, u, q);
    }
    hide Holds;
  }

  lemma InstallHolds(s: Sys, t: Sys, tid: nat, p: nat, u: Uuid, q: nat)
    requires q < |s.owner| == |s.closes| && Holds(s, s.owner[q], q) && Owns(s, ByStart(tid), p)
    requires tid in s.starts && s.starts[tid].port == Some(p) && t.starts == s.starts - {tid}
    requires t.opens == s.opens && t.v.sessions == s.v.sessions && t.closes == s.closes && t.closing == s.closing
    requires t.mons == s.mons + [Monitor(p, Running(u), false, false)] && t.owner == s.owner[p := ByMonitor(|s.mons|)]
    ensures Holds(t, t.owner[q], q)
  {
  }

  lemma CommitTracksPorts(s: Sys, tid: nat)
    requires PortsTracked(s) && tid in s.starts && s.starts[tid].port.Some?
    ensures PortsTracked(AfterStartCommit(s, tid))
  {
    hide PortsTracked;
    var u, p, t := s.starts[tid].uuid, s.starts[tid].port.value, AfterStartCommit(s, tid);
    if u in s.v.monitors {
      LateStartTracksPorts(s, t, tid, p);
    } else {
      InstallTracksPorts(s, t, tid, p, u);
    }
  }

  lemma OtherMonitorsOtherPorts(s: Sys, m: nat, n: nat)
    requires PortsTracked(s) && m < |s.mons| && n < |s.mons| && m != n
    requires MonitorOwner(m, s.mons[m]).Some? && MonitorOwner(n, s.mons[n]).Some?
    ensures s.mons[m].port != s.mons[n].port
  {
    assert Owns(s, MonitorOwner(m, s.mons[m]).value, s.mons[m].port);
    assert Owns(s, MonitorOwner(n, s.mons[n]).value, s.mons[n].port);
  }

  /** A monitor changes status and keeps its port under the owner that goes with the new status. */
  lemma StatusTracksPorts(s: Sys, t: Sys, m: nat, after: Monitor)
    requires PortsTracked(s) && m < |s.mons| && MonitorOwner(m, s.mons[m]).Some?
    requires t.opens == s.opens && t.v.sessions == s.v.sessions && t.closes == s.closes && t.starts == s.starts
    requires t.mons == s.mons[m := after] && after.port == s.mons[m].port && t.closing == s.closing
    requires MonitorOwner(m, after).Some?
    requires after.port < |s.owner| ==> t.owner == s.owner[after.port := MonitorOwner(m, after).value]
    ensures PortsTracked(t)
  {
    assert Owns(s, MonitorOwner(m, s.mons[m]).value, after.port);
    assert Holds(s, MonitorOwner(m, s.mons[m]).value, after.port);
    forall n | 0 <= n < |s.mons| && n != m && MonitorOwner(n, s.mons[n]).Some? ensures s.mons[n].port != after.port {
      OtherMonitorsOtherPorts(s, m, n);
    }
    forall q | 0 <= q < |t.owner| ensures Holds(t, t.owner[q], q) {
      StatusHolds(s, t, m, after, q);
    }
    hide Holds;
  }

  lemma StatusHolds(s: Sys, t: Sys, m: nat, after: Monitor, q: nat)
    requires q < |s.owner| == |s.closes| && m < |s.mons| && MonitorOwner(m, s.mons[m]).Some? && Holds(s, s.owner[q], q)
    requires t.opens == s.opens && t.v.sessions == s.v.sessions && t.closes == s.closes && t.starts == s.starts
    requires t.mons == s.mons[m := after] && after.port == s.mons[m].port && t.closing == s.closing
    requires MonitorOwner(m, after).Some? && Owns(s, MonitorOwner(m, s.mons[m]).value, after.port)
    requires t.owner == s.owner[after.port := MonitorOwner(m, after).value]
    ensures Holds(t, t.owner[q], q)
  {
  }

  /** A monitor ends and hands its port over for closing. */
  lemma FinishTracksPorts(s: Sys, t: Sys, m: nat, after: Monitor)
    requires PortsTracked(s) && m < |s.mons| && MonitorOwner(m, s.mons[m]).Some?
    requires t.opens == s.opens && t.v.sessions == s.v.sessions && t.closes == s.closes && t.starts == s.starts
    requires t.mons == s.mons[m := after] && after.port == s.mons[m].port && t.closing == s.closing + {after.port}
    requires MonitorOwner(m, after).None?
    requires after.port < |s.owner| ==> t.owner == s.owner[after.port := ByCloser]
    ensures PortsTracked(t)
  {
    assert Owns(s, MonitorOwner(m, s.mons[m]).value, after.port);
    forall n | 0 <= n < |s.mons| && n != m && MonitorOwner(n, s.mons[n]).Some? ensures s.mons[n].port != after.port {
      OtherMonitorsOtherPorts(s, m, n);
    }
    forall q | 0 <= q < |t.owner| ensures Holds(t, t.owner[q], q) {
      assert Holds(s, s.owner[q], q);
    }
  }

  lemma StopTracksPorts(s: Sys, u: Uuid)
    requires PortsTracked(s) && MonitorsTracked(s)
    ensures PortsTracked(AfterStop(s, u))
  {
    WithDeviceFrame(s.v, u);
    hide WithDevice, PortsTracked;
    var t := AfterStop(s, u);
    if u in s.v.monitors {
      var m := s.v.monitors[u];
      assert s.mons[m].status == Running(u);
      hide MonitorsTracked;
      StatusTracksPorts(s, t, m, s.mons[m].(status := Stopping));
    } else {
      hide MonitorsTracked;
      SameHoldersKeep(s, t);
    }
  }

  lemma MonitorCloseTracksPorts(s: Sys, m: nat)
    requires PortsTracked(s) && MonitorsTracked(s) && m < |s.mons| && s.mons[m].status.Stopping?
    ensures PortsTracked(AfterMonitorClose(s, m))
  {
    assert s.mons[m].closed == s.mons[m].pumpDied;
    hide PortsTracked, MonitorsTracked;
    var mon, t := s.mons[m], AfterMonitorClose(s, m);
    var after := mon.(status := Finished, closed := true);
    if mon.closed { StatusTracksPorts(s, t, m, after); } else { FinishTracksPorts(s, t, m, after); }
  }

  lemma PumpDeathTracksPorts(s: Sys, m: nat)
    requires PortsTracked(s) && MonitorsTracked(s) && m < |s.mons| && !s.mons[m].closed
    ensures PortsTracked(s.(mons := s.mons[m := s.mons[m].(closed := true, pumpDied := true)]))
  {
    var t := s.(mons := s.mons[m := s.mons[m].(closed := true, pumpDied := true)]);
    forall p | 0 <= p < |t.owner| ensures Holds(t, t.owner[p], p) {
      assert Holds(s, s.owner[p], p);
    }
  }

  lemma PortCloseTracksPorts(s: Sys, p: nat)
    requires PortsTracked(s) && p in s.closing
    ensures PortsTracked(AfterPortClose(s, p))
  {
    var t := AfterPortClose(s, p);
    forall q | 0 <= q < |t.owner| ensures Holds(t, t.owner[q], q) {
      assert Holds(s, s.owner[q], q);
    }
  }

  lemma OtherStepsKeepHolders(s: Sys, l: Label)
    requires s.words.WellFormed() && Enabled(s, l)
    requires l.ClaimStep? || l.LookupStep? || l.StartStep? || RegistryOnly(l)
    requires l.ClaimStep? ==> l.sid !in s.opens
    ensures SameHolders(s, Step(s, l))
  {
    if RegistryOnly(l) { RegistryFrame(s, l); }
  }

  lemma StepTracksPorts(s: Sys, l: Label)
    requires Inv(s) && Enabled(s, l)
    ensures PortsTracked(Step(s, l))
  {
    hide PortsTracked, SameHolders, MonitorsTracked, WellFormed;
    hide AfterClaim, AfterOpen, AfterRegister, AfterClose, AfterStart, AfterStartOpen, AfterStartCommit, AfterStop;
    hide AfterMonitorClose, AfterPortClose;
    if l.OpenStep? {
      OpenTracksPorts(s, l.sid, l.ok);
    } else if l.RegisterStep? {
      RegisterTracksPorts(s, l.sid);
    } else if l.CloseStep? {
      CloseSessionTracksPorts(s, l.sid);
    } else if l.StartOpenStep? {
      StartOpenTracksPorts(s, l.tid, l.ok);
    } else if l.StartCommitStep? {
      CommitTracksPorts(s, l.tid);
    } else if l.StopStep? {
      StopTracksPorts(s, l.uuid);
    } else if l.MonitorCloseStep? {
      MonitorCloseTracksPorts(s, l.mid);
    } else if l.PumpDiesStep? {
      PumpDeathTracksPorts(s, l.mid);
    } else if l.PortCloseStep? {
      PortCloseTracksPorts(s, l.port);
    } else {
      hide Step;
      OtherStepsKeepHolders(s, l);
      SameHoldersKeep(s, Step(s, l));
    }
  }

  lemma StepKeepsWords(s: Sys, l: Label)
    requires s.words.WellFormed() && Enabled(s, l)
    ensures Step(s, l).words == s.words
  {
  }

  lemma StepKeepsInv(s: Sys, l: Label)
    requires Inv(s) && Enabled(s, l)
    ensures Inv(Step(s, l))
  {
    hide Step, WellFormed, ClaimsConserved, MonitorsTracked, PortsTracked;
    StepKeepsWords(s, l);
    StepKeepsRegistry(s, l);
    StepConservesClaims(s, l);
    StepTracksMonitors(s, l);
    StepTracksPorts(s, l);
  }

  lemma RunInit(ss: seq<Sys>, ls: seq<Label>)
    requires Run(ss, ls)
    ensures |ss| == |ls| + 1 && Inv(ss[0])
  {
  }

  lemma RunLink(ss: seq<Sys>, ls: seq<Label>, i: nat)
    requires Run(ss, ls) && i < |ls|
    ensures Linked(ss[i], ls[i], ss[i + 1])
  {
    hide Linked, Init;
  }

  lemma LinkKeepsInv(s: Sys, l: Label, t: Sys)
    requires Inv(s) && Linked(s, l, t)
    ensures Inv(t)
  {
    hide Inv, Enabled, Step;
    StepKeepsInv(s, l);
  }

  /** The invariant holds in every state of every run. */
  lemma {:induction false} RunKeepsInv(ss: seq<Sys>, ls: seq<Label>, i: nat)
    requires Run(ss, ls) && i < |ss|
    ensures Inv(ss[i])
  {
    hide *;
    RunInit(ss, ls);
    if i > 0 {
      RunKeepsInv(ss, ls, i - 1);
      RunLink(ss, ls, i - 1);
      LinkKeepsInv(ss[i - 1], ls[i - 1], ss[i]);
    }
  }
}
