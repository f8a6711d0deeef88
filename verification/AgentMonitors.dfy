// When turning monitoring off sticks, on every run of the agent core: a start that is owed or past
// its check does not look at the record again (internal/agent/core.go).
module AgentMonitors {
  import opened Prelude
  import opened Registry
  import opened AgentSystem
  import opened AgentTheorems
  import opened AgentRescan
  import opened AgentSettings
  import Names

  /** A start of u that is between its two locked sections. */
  ghost predicate Underway(s: Sys, tid: nat, u: Uuid) { tid in s.starts && s.starts[tid].uuid == u }

  ghost predicate Commits(s: Sys, l: Label, u: Uuid) { l.StartCommitStep? && Underway(s, l.tid, u) }

  predicate Begins(l: Label, u: Uuid) { l.StartStep? && l.uuid == u }

  lemma StepOnMonitors(s: Sys, l: Label, u: Uuid)
    requires s.words.WellFormed() && Enabled(s, l)
    ensures u in Step(s, l).v.monitors <==>
              l != StopStep(u) && (Commits(s, l, u) || u in s.v.monitors)
  {
    hide Step;
    if l.StopStep? {
      StopOnMonitors(s, l.uuid, u);
    } else if l.StartCommitStep? || l.MonitorCloseStep? || l.PumpDiesStep? {
      CommitOnMonitors(s, l, u);
    } else {
      OtherStepsKeepMonitors(s, l);
    }
  }

  lemma StopOnMonitors(s: Sys, x: Uuid, u: Uuid)
    requires s.words.WellFormed() && Enabled(s, StopStep(x))
    ensures u in Step(s, StopStep(x)).v.monitors <==> x != u && u in s.v.monitors
  {
    WithDeviceFrame(s.v, x);
    hide WithDevice;
  }

  lemma CommitOnMonitors(s: Sys, l: Label, u: Uuid)
    requires s.words.WellFormed() && Enabled(s, l) && (l.StartCommitStep? || l.MonitorCloseStep? || l.PumpDiesStep?)
    ensures u in Step(s, l).v.monitors <==> Commits(s, l, u) || u in s.v.monitors
  {
  }

  lemma StepOnStarts(s: Sys, l: Label, tid: nat, u: Uuid)
    requires s.words.WellFormed() && Enabled(s, l) && Underway(Step(s, l), tid, u)
    ensures Underway(s, tid, u) || Begins(l, u)
  {
    hide ClaimOutcomeOf, RegisterSucceeds, Scan, UpdateRec, Rename, StopMonitor, StartCheck, StartPath;
    if RegistryOnly(l) { RegistryFrame(s, l); }
  }

  lemma Across(ss: seq<Sys>, ls: seq<Label>, i: nat, tid: nat, u: Uuid)
    requires Run(ss, ls) && i < |ls|
    ensures |ss| == |ls| + 1
    ensures u in ss[i + 1].v.monitors <==> ls[i] != StopStep(u) && (Commits(ss[i], ls[i], u) || u in ss[i].v.monitors)
    ensures Underway(ss[i + 1], tid, u) ==> Underway(ss[i], tid, u) || Begins(ls[i], u)
  {
    hide *;
    RunShape(ss, ls);
    RunStep(ss, ls, i);
    InvWords(ss[i]);
    StepOnMonitors(ss[i], ls[i], u);
    if Underway(ss[i + 1], tid, u) { StepOnStarts(ss[i], ls[i], tid, u); }
  }

  /** After the last stop of a device's monitor (step k) one runs on it again exactly when some start
      has committed since. */
  lemma {:induction false} MonitorReturnsIff(ss: seq<Sys>, ls: seq<Label>, k: nat, j: nat, u: Uuid)
    requires Run(ss, ls) && k < j < |ss| && k < |ls| && ls[k] == StopStep(u)
    requires forall x | k < x < j && x < |ls| :: ls[x] != StopStep(u)
    ensures u in ss[j].v.monitors <==> exists x | k < x < j && x < |ls| :: Commits(ss[x], ls[x], u)
    decreases j
  {
    hide Run, Commits;
    RunShape(ss, ls);
    Across(ss, ls, j - 1, 0, u);
    if k < j - 1 { MonitorReturnsIff(ss, ls, k, j - 1, u); }
  }

  ghost predicate NoneBegins(ls: seq<Label>, a: nat, u: Uuid) {
    forall x | a <= x < |ls| :: !Begins(ls[x], u)
  }

  /** A start underway was underway before, unless one has begun since. */
  lemma {:induction false} StartsWereUnderway(ss: seq<Sys>, ls: seq<Label>, i: nat, j: nat, tid: nat, u: Uuid)
    requires Run(ss, ls) && i <= j < |ss| && Underway(ss[j], tid, u) && NoneBegins(ls, i, u)
    ensures Underway(ss[i], tid, u)
    decreases j - i
  {
    hide Run, Underway, Begins;
    RunShape(ss, ls);
    if i < j {
      Across(ss, ls, j - 1, tid, u);
      StartsWereUnderway(ss, ls, i, j - 1, tid, u);
    }
  }

  // ---- Starts that are still owed ----

  predicate TurnsOn(l: Label, u: Uuid) { l.UpdateStep? && l.uuid == u && l.edit.SetMonitored? && l.edit.on }

  /** The device is known and its edited record could be written: the call goes on after the edit. */
  ghost predicate Saved(s: Sys, l: Label) { l.UpdateStep? && l.saveOk && l.uuid in UuidsOf(s.v.cfg) }

  predicate AsksToStart(r: ScanOutcome, u: Uuid) { r.Scanned? && u in r.startMonitors }

  /** A start of u has still to be made once this step is done: by a completed rescan that found u
      monitored and without a monitor, or by a call that turns monitoring on and could save that. */
  ghost predicate OwesStart(s: Sys, l: Label, u: Uuid) {
    || (l.ScanStep? && |l.minted| == |l.ports| && s.words.WellFormed()
        && AsksToStart(Scan(s.v, s.words, l.ports, l.minted, l.saveOk).1, u))
    || (TurnsOn(l, u) && Saved(s, l))
  }

  /** How many starts of u the first n steps owe and have not begun. */
  ghost function Owed(ss: seq<Sys>, ls: seq<Label>, u: Uuid, n: nat): nat
    requires n <= |ls| && n <= |ss|
  {
    if n == 0 then 0
    else
      var before := Owed(ss, ls, u, n - 1);
      if OwesStart(ss[n - 1], ls[n - 1], u) then before + 1
      else if Begins(ls[n - 1], u) && before > 0 then before - 1
      else before
  }

  /** From step a on nobody turns monitoring of u on, and every start of u that begins was owed. */
  ghost predicate OnlyOwedStarts(ss: seq<Sys>, ls: seq<Label>, a: nat, u: Uuid) {
    |ls| <= |ss| && forall x | a <= x < |ls| :: !TurnsOn(ls[x], u) && (Begins(ls[x], u) ==> Owed(ss, ls, u, x) > 0)
  }

  /** Some continuation in which nobody turns monitoring on again has a monitor on the device. */
  ghost predicate CanBeMonitored(ss: seq<Sys>, ls: seq<Label>, u: Uuid) {
    exists tt: seq<Sys>, ms: seq<Label> ::
      Extends(ss, ls, tt, ms) && OnlyOwedStarts(tt, ms, |ls|, u) && u in tt[|ms|].v.monitors
  }

  ghost predicate NoneUnderway(s: Sys, u: Uuid) { forall tid :: !Underway(s, tid, u) }

  /** The record of u, if there is one, says not to monitor it. */
  ghost predicate OffRecord(v: View, u: Uuid) {
    forall k | k in v.cfg && v.cfg[k].uuid == u :: !v.cfg[k].monitored
  }

  lemma OffRecordAfter(v: View, t: View, l: Label, k: Key, u: Uuid)
    requires Kept(v, t, l, k, Monitoring) && Appears(v, t, l, k, Monitoring)
    requires !TurnsOn(l, u) && k in t.cfg && t.cfg[k].uuid == u
    requires OffRecord(v, u) || (l.UpdateStep? && l.uuid == u && l.edit.SetMonitored?)
    ensures !t.cfg[k].monitored
  {
    if k in v.cfg { assert v.cfg[k].uuid in UuidsOf(v.cfg); }
  }

  /** Only turning monitoring on undoes the record, and turning it off sets it. */
  lemma RecordStaysOff(ss: seq<Sys>, ls: seq<Label>, n: nat, u: Uuid)
    requires Run(ss, ls) && n < |ls| && n < |ss| && !TurnsOn(ls[n], u)
    requires OffRecord(ss[n].v, u) || (ls[n].UpdateStep? && ls[n].uuid == u && ls[n].edit.SetMonitored?)
    ensures n + 1 < |ss| && OffRecord(ss[n + 1].v, u)
  {
    hide Run, Kept, Appears;
    RunShape(ss, ls);
    var cfg := ss[n + 1].v.cfg;
    forall k | k in cfg && cfg[k].uuid == u ensures !cfg[k].monitored {
      SettingsAcross(ss, ls, n, k, Monitoring);
      OffRecordAfter(ss[n].v, ss[n + 1].v, ls[n], k, u);
    }
  }

  lemma OwedByScan(s: Sys, l: Label, u: Uuid)
    requires Inv(s) && Enabled(s, l) && l.ScanStep? && OwesStart(s, l, u)
    ensures s.words.WellFormed() && u in UuidsOf(Step(s, l).v.cfg) && !OffRecord(Step(s, l).v, u)
  {
    hide ClaimsConserved, PortsTracked, MonitorsTracked, WellFormed, Scan;
    MonitorsFollowPresence(s.v, s.words, l.ports, l.minted, l.saveOk, u);
  }

  /** A start is owed only for a known device, and never to a rescan whose record says no. */
  lemma OwedMeans(ss: seq<Sys>, ls: seq<Label>, n: nat, u: Uuid)
    requires Run(ss, ls) && n < |ls| < |ss| && OwesStart(ss[n], ls[n], u)
    ensures u in UuidsOf(ss[n + 1].v.cfg)
    ensures TurnsOn(ls[n], u) || !OffRecord(ss[n + 1].v, u)
  {
    hide Run, Inv, Enabled, Step, Effect, UuidsOf, OffRecord, Scan;
    if ls[n].ScanStep? {
      RunStep(ss, ls, n);
      OwedByScan(ss[n], ls[n], u);
    } else {
      KnownStays(ss, ls, n, u);
    }
  }

  lemma {:induction false} OwedIsKnown(ss: seq<Sys>, ls: seq<Label>, n: nat, u: Uuid)
    requires Run(ss, ls) && n <= |ls| < |ss| && Owed(ss, ls, u, n) > 0
    ensures u in UuidsOf(ss[n].v.cfg)
  {
    hide Run, UuidsOf, OwesStart;
    if OwesStart(ss[n - 1], ls[n - 1], u) {
      OwedMeans(ss, ls, n - 1, u);
    } else {
      OwedIsKnown(ss, ls, n - 1, u);
      KnownStays(ss, ls, n - 1, u);
    }
  }

  lemma {:induction false} OwedInPrefix(ss: seq<Sys>, ls: seq<Label>, tt: seq<Sys>, ms: seq<Label>, u: Uuid, n: nat)
    requires ss <= tt && ls <= ms && n <= |ls| && n <= |ss|
    ensures Owed(tt, ms, u, n) == Owed(ss, ls, u, n)
  {
    if n > 0 {
      OwedInPrefix(ss, ls, tt, ms, u, n - 1);
      assert tt[n - 1] == ss[n - 1] && ms[n - 1] == ls[n - 1];
    }
  }

  /** Nothing monitors u, and nothing is left that will. */
  ghost predicate AtRest(ss: seq<Sys>, ls: seq<Label>, u: Uuid, n: nat)
    requires n <= |ls| && n < |ss|
  {
    && u !in ss[n].v.monitors && NoneUnderway(ss[n], u) && Owed(ss, ls, u, n) == 0
    && OffRecord(ss[n].v, u)
  }

  lemma {:induction false} RestIsKept(ss: seq<Sys>, ls: seq<Label>, a: nat, n: nat, u: Uuid)
    requires Run(ss, ls) && a <= n <= |ls| < |ss| && AtRest(ss, ls, u, a) && OnlyOwedStarts(ss, ls, a, u)
    ensures AtRest(ss, ls, u, n)
    decreases n - a
  {
    hide Run, OffRecord, OwesStart, Underway, Begins, TurnsOn, Commits;
    if a < n {
      RestIsKept(ss, ls, a, n - 1, u);
      RecordStaysOff(ss, ls, n - 1, u);
      if OwesStart(ss[n - 1], ls[n - 1], u) { OwedMeans(ss, ls, n - 1, u); }
      Across(ss, ls, n - 1, 0, u);
      if Commits(ss[n - 1], ls[n - 1], u) { CommitsAreUnderway(ss[n - 1], ls[n - 1], u); }
      forall tid ensures !Underway(ss[n], tid, u) { Across(ss, ls, n - 1, tid, u); }
    }
  }

  lemma FreshId(s: set<nat>) returns (n: nat)
    ensures forall x | x in s :: x < n
  {
    n := 0;
    if x :| x in s {
      n := FreshId(s - {x});
      assert forall y | y in s :: y == x || y in s - {x};
      if n <= x { n := x + 1; }
    }
  }

  /** A rescan that finds only the known device with key k. */
  lemma Rediscovers(s: Sys, k: Key) returns (l: Label)
    requires Inv(s) && k in s.v.cfg
    ensures s.words.WellFormed() && l.ScanStep? && Enabled(s, l)
    ensures var t := Step(s, l);
            && t.v.cfg == s.v.cfg && t.v.monitors == s.v.monitors && t.starts == s.starts
            && k in t.v.devices && t.v.devices[k].online
    ensures s.v.cfg[k].monitored && s.v.cfg[k].uuid !in s.v.monitors ==> OwesStart(s, l, s.v.cfg[k].uuid)
  {
    hide ClaimsConserved, PortsTracked, MonitorsTracked;
    var id := FreshId(UuidsOf(s.v.cfg));
    l := ScanStep([PortInfo(k, NO_HARDWARE, true)], [Identity(id, _ => None)], true);
    assert Enabled(s, l);
    assert l.ports[0] in l.ports;
    assert Reconcile(s.v, s.words, l.ports, l.minted, 0) == (s.v, true);
    assert Reconcile(s.v, s.words, l.ports, l.minted, 1).1;
    assert s.v.cfg[k := s.v.cfg[k]] == s.v.cfg;
    ScanCompletesIff(s.v, s.words, l.ports, l.minted, true);
    MonitorsFollowPresence(s.v, s.words, l.ports, l.minted, true, s.v.cfg[k].uuid);
    hide WellFormed, Names.Generated, ReconcilePort;
  }

  lemma BeginNext(s: Sys, k: Key, u: Uuid, tid: nat)
    requires Inv(s) && k in s.v.cfg && s.v.cfg[k].uuid == u && k in s.v.devices && s.v.devices[k].online
    requires u !in s.v.monitors && tid !in s.starts
    ensures s.words.WellFormed() && Enabled(s, StartStep(tid, u)) && Underway(Step(s, StartStep(tid, u)), tid, u)
  {
    hide ClaimsConserved, PortsTracked, MonitorsTracked;
    assert KeyOf(s.v.cfg, u) == Some(k);
  }

  /** A start underway can always commit. */
  lemma UnderwayCommits(ss: seq<Sys>, ls: seq<Label>, tid: nat, u: Uuid) returns (tt: seq<Sys>, ms: seq<Label>)
    requires Run(ss, ls) && |ss| == |ls| + 1 && Underway(ss[|ls|], tid, u)
    ensures Extends(ss, ls, tt, ms) && u in tt[|ms|].v.monitors
    ensures forall x | |ls| <= x < |ms| :: !Begins(ms[x], u) && !TurnsOn(ms[x], u)
    ensures tt[|ms|].v.cfg == ss[|ls|].v.cfg
  {
    hide Run;
    tt, ms := ss, ls;
    if ss[|ls|].starts[tid].port.None? {
      tt, ms := ExtendRun(ss, ls, StartOpenStep(tid, true));
    }
    assert Underway(tt[|ms|], tid, u) && tt[|ms|].starts[tid].port.Some?;
    var mid, labels := tt, ms;
    tt, ms := ExtendRun(mid, labels, StartCommitStep(tid));
  }

  /** A start owed can always begin and commit, at the latest once the device has been found. */
  lemma OwedCommits(ss: seq<Sys>, ls: seq<Label>, u: Uuid) returns (tt: seq<Sys>, ms: seq<Label>)
    requires Run(ss, ls) && |ss| == |ls| + 1 && Owed(ss, ls, u, |ls|) > 0 && u !in ss[|ls|].v.monitors
    ensures Extends(ss, ls, tt, ms) && OnlyOwedStarts(tt, ms, |ls|, u) && u in tt[|ms|].v.monitors
    ensures tt[|ms|].v.cfg == ss[|ls|].v.cfg
  {
    hide Run, Inv, Step, Enabled, Underway, OwesStart;
    OwedIsKnown(ss, ls, |ls|, u);
    RunKeepsInv(ss, ls, |ls|);
    var k :| k in ss[|ls|].v.cfg && ss[|ls|].v.cfg[k].uuid == u;
    var find := Rediscovers(ss[|ls|], k);
    var found, labels := ExtendRun(ss, ls, find);
    RunKeepsInv(found, labels, |labels|);
    var tid := FreshId(found[|labels|].starts.Keys);
    BeginNext(found[|labels|], k, u, tid);
    var begun, more := ExtendRun(found, labels, StartStep(tid, u));
    KeepsConfig(found[|labels|], StartStep(tid, u));
    tt, ms := UnderwayCommits(begun, more, tid, u);
    OwedInPrefix(ss, ls, tt, ms, u, |ls|);
    assert ms[|ls|] == find && ms[|ls| + 1] == StartStep(tid, u);
  }

  lemma KeepsConfig(s: Sys, l: Label)
    requires s.words.WellFormed() && Enabled(s, l) && l.StartStep?
    ensures Step(s, l).v.cfg == s.v.cfg
  {
    StepKeepsConfig(s, l);
    hide Step;
  }

  /** Once the record says not to monitor a device, and until somebody turns monitoring on again, a
      monitor can run on it exactly when one runs, a start is underway, or a start is still owed: a
      start that is owed does not look at the record again. */
  lemma MonitoredAgainIff(ss: seq<Sys>, ls: seq<Label>, u: Uuid)
    requires Run(ss, ls) && |ss| == |ls| + 1 && OffRecord(ss[|ls|].v, u)
    ensures !CanBeMonitored(ss, ls, u) <==>
              u !in ss[|ls|].v.monitors && NoneUnderway(ss[|ls|], u) && Owed(ss, ls, u, |ls|) == 0
  {
    hide Run, Underway, OffRecord, Begins, TurnsOn;
    if u in ss[|ls|].v.monitors {
      assert Extends(ss, ls, ss, ls);
    } else if tid :| Underway(ss[|ls|], tid, u) {
      var tt, ms := UnderwayCommits(ss, ls, tid, u);
    } else if Owed(ss, ls, u, |ls|) > 0 {
      var tt, ms := OwedCommits(ss, ls, u);
    } else if CanBeMonitored(ss, ls, u) {
      var tt: seq<Sys>, ms: seq<Label> :|
        Extends(ss, ls, tt, ms) && OnlyOwedStarts(tt, ms, |ls|, u) && u in tt[|ms|].v.monitors;
      OwedInPrefix(ss, ls, tt, ms, u, |ls|);
      assert tt[|ls|] == ss[|ls|];
      RestIsKept(tt, ms, |ls|, |ms|, u);
      assert false;
    }
  }

  lemma {:induction false} StaysOffRecord(ss: seq<Sys>, ls: seq<Label>, i: nat, n: nat, u: Uuid)
    requires Run(ss, ls) && i <= n <= |ls| < |ss| && OffRecord(ss[i].v, u)
    requires forall x | i <= x < n :: !TurnsOn(ls[x], u)
    ensures OffRecord(ss[n].v, u)
    decreases n - i
  {
    hide Run, OffRecord, TurnsOn;
    if i < n {
      StaysOffRecord(ss, ls, i, n - 1, u);
      RecordStaysOff(ss, ls, n - 1, u);
    }
  }

  /** A monitor runs until it is stopped. */
  lemma {:induction false} MonitorsLastUntilStopped(ss: seq<Sys>, ls: seq<Label>, i: nat, n: nat, u: Uuid)
    requires Run(ss, ls) && i <= n <= |ls| < |ss| && u in ss[i].v.monitors
    requires forall x | i <= x < n :: ls[x] != StopStep(u)
    ensures u in ss[n].v.monitors
    decreases n - i
  {
    hide Run;
    if i < n {
      MonitorsLastUntilStopped(ss, ls, i, n - 1, u);
      Across(ss, ls, n - 1, 0, u);
    }
  }

  lemma TurnsItOff(l: Label, u: Uuid, baud: int, saveOk: bool)
    requires l == UpdateStep(u, SetMonitored(false, baud), saveOk)
    ensures !TurnsOn(l, u) && l.UpdateStep? && l.uuid == u && l.edit.SetMonitored?
  {
  }

  /** Monitoring of u is turned off (step i), nobody turns it on again, and the run ends at the stop
      the call owes, which it makes only when the record was saved. The record says off from then on.
      The device goes unmonitored, until monitoring is turned on again, exactly when the record was
      saved or nothing monitors it anyway, and no start of it is underway or still owed. If saving
      failed, a monitor that was running still is, unless somebody else stopped it. */
  lemma MonitoringEndsIff(ss: seq<Sys>, ls: seq<Label>, i: nat, u: Uuid, baud: int, saveOk: bool)
    requires Run(ss, ls) && i < |ls| && i < |ss| && ls[i] == UpdateStep(u, SetMonitored(false, baud), saveOk)
    requires forall x | i < x < |ls| :: !TurnsOn(ls[x], u)
    requires Saved(ss[i], ls[i]) ==> ls[|ls| - 1] == StopStep(u)
    ensures |ss| == |ls| + 1 && OffRecord(ss[|ls|].v, u)
    ensures !CanBeMonitored(ss, ls, u) <==>
              && (Saved(ss[i], ls[i]) || u !in ss[|ls|].v.monitors)
              && NoneUnderway(ss[|ls|], u) && Owed(ss, ls, u, |ls|) == 0
    ensures !Saved(ss[i], ls[i]) && u in ss[i].v.monitors && (forall x | i < x < |ls| :: ls[x] != StopStep(u)) ==>
              u in ss[|ls|].v.monitors
  {
    hide *;
    RunShape(ss, ls);
    TurnsItOff(ls[i], u, baud, saveOk);
    RecordStaysOff(ss, ls, i, u);
    StaysOffRecord(ss, ls, i + 1, |ls|, u);
    MonitoredAgainIff(ss, ls, u);
    if Saved(ss[i], ls[i]) {
      Across(ss, ls, |ls| - 1, 0, u);
    } else if u in ss[i].v.monitors && forall x | i < x < |ls| :: ls[x] != StopStep(u) {
      MonitorsLastUntilStopped(ss, ls, i, |ls|, u);
    }
  }

  lemma CommitsAreUnderway(s: Sys, l: Label, u: Uuid)
    requires Commits(s, l, u)
    ensures l.StartCommitStep? && Underway(s, l.tid, u)
  {
  }
}
