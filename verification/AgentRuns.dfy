// Runs of the agent core that end where one might not expect, as the exact conditions allow.
module AgentRuns {
  import opened Prelude
  import opened Registry
  import opened AgentSystem
  import opened AgentTheorems
  import opened AgentRescan
  import opened AgentSettings
  import opened AgentMonitors
  import opened AgentLost
  import opened AgentCap
  import opened AgentNews
  import Names
  import RelaySystem

  /** The state after device 0, exposed, has been found. */
  ghost predicate Found(s: Sys) {
    Ready(s, 1, 0, 0) && s.starts == map[] && s.mons == [] && s.owner == []
  }

  lemma FindOne(w: Names.Words) returns (ss: seq<Sys>, ls: seq<Label>)
    requires w.WellFormed()
    ensures Run(ss, ls) && |ls| == 1 && |ss| == 2 && Found(ss[1])
  {
    hide Run, Ready;
    var s;
    ss, ls, s := Start(w, 1, 1);
    RunShape(ss, ls);
  }

  /** Device 0 found and then claimed: its open is in flight under id 0. */
  lemma ClaimOne(w: Names.Words) returns (ss: seq<Sys>, ls: seq<Label>)
    requires w.WellFormed()
    ensures Run(ss, ls) && |ls| == 2 && |ss| == 3 && Ready(ss[2], 1, 0, 1)
  {
    hide Run, Ready, Step, Enabled;
    ss, ls := FindOne(w);
    var l := ClaimReady(ss[1], 1, 0, 0);
    ss, ls := ExtendRun(ss, ls, l);
  }

  lemma InFlight(s: Sys)
    requires Ready(s, 1, 0, 1)
    ensures 0 in s.opens && s.opens[0].uuid == 0 && StillOurs(s.v, 0, 0) && 0 !in s.v.sessions
    ensures 0 in s.v.devices && 0 in s.v.cfg && s.v.cfg[0].uuid == 0 && s.words.WellFormed() && Exposed(s.v, 0)
  {
    assert s.v.devices[0].rec == Device(0);
    assert Between(0, 0, 1) && s.opens.Keys == Range(0, 1);
    assert 0 in Range(0, 1) && 0 !in Range(0, 0);
  }

  lemma MissingIt(s: Sys)
    requires Ready(s, 1, 0, 1)
    ensures var l := ScanStep([], [], true);
            && Enabled(s, l) && s.words.WellFormed() && Scan(s.v, s.words, [], [], true).1.Scanned?
            && Step(s, l).opens == s.opens && Step(s, l).v.sessions == s.v.sessions && Exposed(Step(s, l).v, 0)
  {
    InFlight(s);
    var v := Scan(s.v, s.words, [], [], true).0;
    assert Reconcile(s.v, s.words, [], [], 0) == (s.v, true);
    assert v.cfg == s.v.cfg && v.devices[0].rec == s.v.devices[0].rec;
    assert s.v.devices[0].rec == Device(0);
  }

  /** A session on a device that is absent: it vanishes while it is being opened (step 2), the close
      meant for its session finds none (step 3), and the open then registers. */
  lemma AbsentDeviceGetsASession(w: Names.Words) returns (ss: seq<Sys>, ls: seq<Label>)
    requires w.WellFormed()
    ensures Run(ss, ls) && |ss| == |ls| + 1 && |ls| > 4
    ensures Misses(ss, ls, 2, 0, 0) && StillOurs(ss[2].v, 0, 0) && ls[3] == CloseStep(0)
    ensures Off(ss[|ls|].v, 0, 0) && 0 in ss[|ls|].v.sessions && ss[|ls|].v.sessions[0].uuid == 0
  {
    hide Run, Ready, Step, Enabled, Exposed, Off;
    ss, ls := ClaimOne(w);
    InFlight(ss[2]);
    MissingIt(ss[2]);
    ss, ls := ExtendRun(ss, ls, ScanStep([], [], true));
    ss, ls := ExtendRun(ss, ls, CloseStep(0)) by { CanClose(ss[3], 0); }
    CloseResult(ss, ls, 3, 0);
    var mid, labels := ss, ls;
    ss, ls := OpenCanComplete(mid, labels, 0);
    forall x | 3 <= x < |ls| ensures !Finds(ls[x], 0) {
      if x >= 4 { assert Completes(ls[x], 0); } else { assert ls[x] == labels[x]; }
    }
    assert ss[2] == mid[2] && ls[2] == labels[2] && ls[3] == labels[3];
    OnlyTheHolderRemains(ss, ls, 2, |ls|, 0, 0, 0);
  }

  lemma CanClose(s: Sys, sid: Sid)
    ensures Enabled(s, CloseStep(sid))
  {
  }

  /** ReleaseDevice answers true because a claim is held (state 2), closes nothing (step 2), and the
      session it was asked to end is registered afterwards. */
  lemma ReleaseCanCloseNothing(w: Names.Words) returns (ss: seq<Sys>, ls: seq<Label>)
    requires w.WellFormed()
    ensures Run(ss, ls) && |ss| == |ls| + 1 && |ls| > 3
    ensures StillOurs(ss[2].v, 0, 0) && 0 !in ss[2].v.sessions && ls[2] == CloseStep(0) && ss[3] == ss[2]
    ensures 0 in ss[|ls|].v.sessions && ss[|ls|].v.sessions[0].uuid == 0
  {
    hide Run, Ready, Step, Enabled, Exposed;
    ss, ls := ClaimOne(w);
    InFlight(ss[2]);
    ss, ls := ExtendRun(ss, ls, CloseStep(0)) by { CanClose(ss[2], 0); }
    CloseResult(ss, ls, 2, 0);
    var mid, labels := ss, ls;
    ss, ls := OpenCanComplete(mid, labels, 0);
    assert ss[2] == mid[2] && ss[3] == mid[3] && ls[2] == labels[2];
  }

  // ---- A rescan that cannot save ----

  lemma LastOf(ss: seq<Sys>, ls: seq<Label>, k: nat, s: Sys)
    requires RunTo(ss, ls, k, s)
    ensures Run(ss, ls) && |ss| == |ls| + 1 && ss[|ls|] == s
  {
  }

  /** Device 0 found, claimed and opened: it has session 0. */
  lemma HoldOne(w: Names.Words) returns (ss: seq<Sys>, ls: seq<Label>)
    requires w.WellFormed()
    ensures Run(ss, ls) && |ss| == |ls| + 1 && Ready(ss[|ls|], 1, 1, 0)
  {
    hide Run, RunTo, Ready;
    var s;
    ss, ls, s := Start(w, 1, 1);
    ss, ls, s := ClaimNext(ss, ls, 1, s, 1, 0, 0);
    ss, ls, s := CompleteFirst(ss, ls, 1, s, 1, 0, 1);
    LastOf(ss, ls, 1, s);
  }

  /** A rescan that finds only a new device, and cannot save its record. */
  function UnsavedScan(): Label { ScanStep([PortInfo(1, NO_HARDWARE, true)], [Identity(1, _ => Some(0))], false) }

  lemma OneName(w: Names.Words)
    requires w.WellFormed()
    ensures Names.Generated(w, _ => Some(0), {""}).Some?
  {
    var id := Names.PairId(w.adjectives[0], w.nouns[0]);
    assert |id| > 0;
    assert Names.AttemptAt(w, _ => Some(0), 0) == Names.Candidate(id);
  }

  lemma CannotSave(s: Sys)
    requires Ready(s, 1, 1, 0)
    ensures s.words.WellFormed() && Enabled(s, UnsavedScan())
    ensures Scan(s.v, s.words, UnsavedScan().ports, UnsavedScan().minted, false).1 == SaveFailed
    ensures 0 in s.v.devices && 0 in s.v.cfg && s.v.cfg[0].uuid == 0 && 0 !in PresentKeys(UnsavedScan().ports)
    ensures 0 in s.v.sessions && 0 !in s.opens && StillOurs(s.v, 0, 0)
  {
    var l := UnsavedScan();
    assert WordsOf(s.v.cfg) == {""} by { assert s.v.cfg[0].wordId == ""; }
    assert UuidsOf(s.v.cfg) == {0} by { assert s.v.cfg[0].uuid == 0; }
    OneName(s.words);
    hide Names.Generated;
    assert Reconcile(s.v, s.words, l.ports, l.minted, 0) == (s.v, true);
    assert 1 in Reconcile(s.v, s.words, l.ports, l.minted, 1).0.cfg;
    assert Between(0, 0, 1) && 0 in Range(0, 1) && 0 !in Range(1, 1);
  }

  /** A session on an absent device that no rescan has handed over: the device is missed by a rescan
      that finds a new one and cannot save it. */
  lemma FailedRescanKeepsTheSession(w: Names.Words) returns (ss: seq<Sys>, ls: seq<Label>)
    requires w.WellFormed()
    ensures Run(ss, ls) && |ss| == |ls| + 1 && |ls| > 0
    ensures Overlooks(ss, ls, |ls| - 1, 0, 0) && OutcomeAt(ss, ls, |ls| - 1) == SaveFailed
    ensures Off(ss[|ls|].v, 0, 0) && 0 in ss[|ls|].v.sessions && ss[|ls|].v.sessions[0].uuid == 0
  {
    hide Run, Ready, Step, Enabled, Off, Scan, Inv;
    ss, ls := HoldOne(w);
    var n := |ls|;
    CannotSave(ss[n]);
    ss, ls := ExtendRun(ss, ls, UnsavedScan());
    ClaimsAreOpensAndSessions(ss, ls, n, 0, 0);
    ScanTurnsOff(ss, ls, n, 0, 0);
  }

  lemma HideNext(s: Sys)
    requires Ready(s, 1, 1, 0)
    ensures s.words.WellFormed() && Enabled(s, UpdateStep(0, SetExposed(false), false))
    ensures 0 in s.v.sessions && 0 !in s.opens && StillOurs(s.v, 0, 0)
  {
    assert Between(0, 0, 1) && 0 in Range(0, 1) && 0 !in Range(1, 1);
  }

  /** A hide that cannot be saved: the device is hidden and still serves its session. */
  lemma FailedHideKeepsTheSession(w: Names.Words) returns (ss: seq<Sys>, ls: seq<Label>)
    requires w.WellFormed()
    ensures Run(ss, ls) && |ss| == |ls| + 1 && |ls| > 0 && ls[|ls| - 1] == UpdateStep(0, SetExposed(false), false)
    ensures Hidden(ss[|ls|].v, 0) && 0 in ss[|ls|].v.sessions && ss[|ls|].v.sessions[0].uuid == 0
  {
    hide Run, Ready, Step, Enabled, Inv, Hidden;
    ss, ls := HoldOne(w);
    var n := |ls|;
    HideNext(ss[n]);
    ss, ls := ExtendRun(ss, ls, UpdateStep(0, SetExposed(false), false));
    ClaimsAreOpensAndSessions(ss, ls, n, 0, 0);
    HiddenAfterUpdate(ss, ls, n, 0, false);
    WasThere(ss, ls, n, 0, false);
  }

  // ---- An open that outlives kill-all ----

  /** Device 0 has session 0, and device 1 is being opened under id 1. */
  lemma HoldOneOpenOne(w: Names.Words) returns (ss: seq<Sys>, ls: seq<Label>)
    requires w.WellFormed()
    ensures Run(ss, ls) && |ss| == |ls| + 1 && Ready(ss[|ls|], 2, 1, 1)
  {
    hide Run, RunTo, Ready;
    var s;
    ss, ls, s := Start(w, 2, 2);
    ss, ls, s := ClaimNext(ss, ls, 2, s, 2, 0, 0);
    ss, ls, s := CompleteFirst(ss, ls, 2, s, 2, 0, 1);
    ss, ls, s := ClaimNext(ss, ls, 2, s, 2, 1, 0);
    LastOf(ss, ls, 2, s);
  }

  lemma OneAndOne(s: Sys)
    requires Ready(s, 2, 1, 1)
    ensures s.words.WellFormed() && s.v.sessions.Keys == {0} && 1 in s.opens && s.opens[1].uuid == 1 && Exposed(s.v, 1)
  {
    assert s.v.devices[1].rec == Device(1);
    assert Range(0, 1) == {0};
    assert Between(1, 1, 2) && 1 in Range(1, 2);
  }

  lemma CloseKeeps(s: Sys, sid: Sid)
    requires s.words.WellFormed()
    ensures Enabled(s, CloseStep(sid))
    ensures Step(s, CloseStep(sid)).opens == s.opens && Step(s, CloseStep(sid)).v.devices == s.v.devices
  {
  }

  /** Kill-all lists session 0 in state k, the only one there is, and closes it. The open in flight
      then becomes a session, with nothing opened anew. */
  lemma OpenOutlivesKillAll(w: Names.Words) returns (ss: seq<Sys>, ls: seq<Label>, k: nat)
    requires w.WellFormed()
    ensures Run(ss, ls) && |ss| == |ls| + 1 && k < |ls| && NoneClaims(ls, k)
    ensures ss[k].v.sessions.Keys == {0} && ls[k] == CloseStep(0) && ss[k + 1].v.sessions == map[]
    ensures ss[|ls|].v.sessions != map[]
  {
    hide Run, Ready, Step, Enabled;
    ss, ls := HoldOneOpenOne(w);
    k := |ls|;
    OneAndOne(ss[k]);
    CloseKeeps(ss[k], 0);
    ss, ls := ExtendRun(ss, ls, CloseStep(0));
    CloseResult(ss, ls, k, 0);
    assert ss[k + 1].v.sessions.Keys == {};
    var mid, labels := ss, ls;
    ss, ls := OpenCanComplete(mid, labels, 1);
    assert ss[k] == mid[k] && ss[k + 1] == mid[k + 1] && ls[k] == labels[k];
    forall x | k <= x < |ls| ensures !ls[x].ClaimStep? {
      if x > k { assert Completes(ls[x], 1); }
    }
  }

  // ---- A reset that becomes old news ----

  lemma MissIdle(s: Sys)
    requires Found(s)
    ensures var l := ScanStep([], [], true);
            && s.words.WellFormed() && Enabled(s, l) && Step(s, l).words == s.words
            && Step(s, l).v.cfg == Config(1) && Step(s, l).v.devices == map[0 := Dev(NO_HARDWARE, Device(0), false, 0)]
  {
    assert Reconcile(s.v, s.words, [], [], 0) == (s.v, true);
    var t := Step(s, ScanStep([], [], true));
    assert t.v.devices.Keys == {0};
  }

  lemma FindAgain(s: Sys)
    requires s.words.WellFormed() && s.v.cfg == Config(1)
    requires s.v.devices == map[0 := Dev(NO_HARDWARE, Device(0), false, 0)]
    ensures var l := ScanStep(AllPorts(1), Unused(1), true);
            && Enabled(s, l) && Step(s, l).v.cfg == Config(1)
            && Step(s, l).v.devices == map[0 := Dev(NO_HARDWARE, Device(0), true, 1)]
  {
    NewUuids(1);
    LengthsMatch(1);
    ScanFindsIt(s.v, s.words);
    hide Scan, Config;
  }

  lemma ScanFindsIt(v: View, w: Names.Words)
    requires w.WellFormed() && v.cfg == Config(1) && v.devices == map[0 := Dev(NO_HARDWARE, Device(0), false, 0)]
    ensures |AllPorts(1)| == 1 == |Unused(1)|
    ensures Scan(v, w, AllPorts(1), Unused(1), true).0 == v.(devices := map[0 := Dev(NO_HARDWARE, Device(0), true, 1)])
  {
    var p := AllPorts(1)[0];
    assert p == PortInfo(0, NO_HARDWARE, true) && p in AllPorts(1);
    assert v.cfg[0 := v.cfg[0]] == v.cfg;
    assert Reconcile(v, w, AllPorts(1), Unused(1), 0) == (v, true);
    hide Names.Generated;
    var u := v.(devices := v.devices[0 := Dev(NO_HARDWARE, Device(0), true, 1)]);
    assert Reconcile(v, w, AllPorts(1), Unused(1), 1) == (u, true);
    assert MarkAbsent(u, PresentKeys(AllPorts(1))).devices == u.devices;
  }

  /** Device 0 is found, missed, and found again on USB. */
  lemma FindMissFind(w: Names.Words) returns (ss: seq<Sys>, ls: seq<Label>)
    requires w.WellFormed()
    ensures Run(ss, ls) && |ls| == 3 && |ss| == 4 && 0 in ss[3].v.cfg && ss[3].v.cfg[0].uuid == 0
    ensures Announces(ss[1].v, 0, 0) && Announces(ss[3].v, 0, 1)
  {
    hide Run, Ready, Step, Enabled;
    ss, ls := FindOne(w);
    MissIdle(ss[1]);
    FoundAnnounces(ss[1]);
    ss, ls := ExtendRun(ss, ls, ScanStep([], [], true));
    FindAgain(ss[2]);
    ss, ls := ExtendRun(ss, ls, ScanStep(AllPorts(1), Unused(1), true));
    assert 0 in ss[3].v.devices && ss[3].v.devices[0].rec.exposed && AnnouncedOf(ss[3].v, 0).resets == 1;
    assert 0 in ss[3].v.cfg && ss[3].v.cfg[0].uuid == 0;
  }

  lemma FoundAnnounces(s: Sys)
    requires Found(s)
    ensures Announces(s.v, 0, 0)
  {
    assert s.v.devices[0] == Dev(NO_HARDWARE, Device(0), true, 0);
    assert AnnouncedOf(s.v, 0).resets == 0;
  }

  /** A session opened in the end, whose lookup at open fails, is told of that return by its first
      lookup that succeeds. */
  lemma OldResetBecomesNews(w: Names.Words, epoch: nat) returns (ss: seq<Sys>, ls: seq<Label>)
    requires w.WellFormed()
    ensures Run(ss, ls) && |ls| == 3 && |ss| == 4 && Announces(ss[3].v, 0, 1)
    ensures ReturnsBetween(History(ss, ls, 0, 3), 0, 3) != {}
    ensures RelaySystem.TakeNews(epoch, RelaySystem.Baseline(epoch, RelaySystem.Unknown), RelaySystem.Known(1, epoch)).0
  {
    hide Run, ReturnsBetween, History, Announces;
    ss, ls := FindMissFind(w);
    OldResetsAreNewsIff(ss, ls, 0, 0, epoch, RelaySystem.Unknown, 0, 1, 3, 3);
  }

  /** So is one whose lookup at open succeeded, but on the announce of state 1: the announces of later
      states were still on their way. */
  lemma StaleLookupMakesOldNews(w: Names.Words, epoch: nat) returns (ss: seq<Sys>, ls: seq<Label>)
    requires w.WellFormed()
    ensures Run(ss, ls) && |ls| == 3 && |ss| == 4 && Announces(ss[1].v, 0, 0) && Announces(ss[3].v, 0, 1)
    ensures ReturnsBetween(History(ss, ls, 0, 3), 1, 3) != {}
    ensures RelaySystem.TakeNews(
              epoch, RelaySystem.Baseline(epoch, RelaySystem.Known(0, epoch)), RelaySystem.Known(1, epoch)).0
  {
    hide Run, ReturnsBetween, History, Announces;
    ss, ls := FindMissFind(w);
    OldResetsAreNewsIff(ss, ls, 0, 0, epoch, RelaySystem.Known(0, epoch), 1, 1, 3, 3);
  }

  // ---- A reset that never was ----

  lemma EditsFirst(s: Sys)
    requires Init(s) && s.v.cfg == Config(1)
    ensures var l := UpdateStep(0, SetExposed(true), true);
            && Enabled(s, l) && Step(s, l).words == s.words
            && Step(s, l).v.cfg == Config(1) && Step(s, l).v.devices == map[0 := Dev(NO_HARDWARE, Device(0), false, 0)]
            && !Observe(s, l, 0).Seen?
  {
    assert 0 in s.v.cfg && s.v.cfg[0] == Device(0);
    assert KeyOf(s.v.cfg, 0) == Some(0);
    assert ApplyEdit(Device(0), SetExposed(true)) == Device(0);
    assert Config(1)[0 := Device(0)] == Config(1);
  }

  lemma NothingRunYet(s: Sys)
    requires Init(s)
    ensures Run([s], []) && s.words.WellFormed()
  {
  }

  /** The operator edits a device the agent has on record but has not looked for yet; the first rescan
      then finds it. It has never vanished, and one reset is counted. */
  lemma FirstSightingCountsAsReset(w: Names.Words) returns (ss: seq<Sys>, ls: seq<Label>)
    requires w.WellFormed()
    ensures Run(ss, ls) && |ls| == 2 && |ss| == 3
    ensures ls[0] == UpdateStep(0, SetExposed(true), true) && ls[1] == ScanStep(AllPorts(1), Unused(1), true)
    ensures 0 in ss[2].v.devices && ss[2].v.devices[0].resets == 1
    ensures Comebacks(History(ss, ls, 0, 2)) == {} && FirstSeenAsPlaceholder(History(ss, ls, 0, 2))
  {
    hide Run, Step, Enabled, Init, History, Observe, FirstSeenAsPlaceholder, Returns;
    var s0 := InitialState(w, 1);
    NothingRunYet(s0);
    EditsFirst(s0);
    ss, ls := ExtendRun([s0], [], UpdateStep(0, SetExposed(true), true));
    FindAgain(ss[1]);
    ss, ls := ExtendRun(ss, ls, ScanStep(AllPorts(1), Unused(1), true));
    NoHistory(ss, ls, 0);
    HistoryStep(ss, ls, 0, 1);
    WordsHold(ss, ls, 1);
    HistoryStep(ss, ls, 0, 2);
    OnlyTwo(History(ss, ls, 0, 2));
    ResetsAreComebacksIff(ss, ls, 0, 2);
  }

  lemma OnlyTwo(h: seq<Observation>)
    requires |h| == 2 && !h[0].Seen?
    ensures Comebacks(h) == {}
  {
    hide Latest;
  }

  // ---- A port left open ----

  /** Device 0 is known and online, and nothing of it is open. */
  ghost predicate Idle(s: Sys) {
    && s.words.WellFormed() && WellFormed(s.v)
    && 0 in s.v.cfg && s.v.cfg[0].uuid == 0 && 0 in s.v.devices && s.v.devices[0].online
    && s.v.monitors == map[] && s.starts == map[] && s.mons == [] && s.owner == []
  }

  lemma FoundIsIdle(s: Sys)
    requires Inv(s) && Found(s)
    ensures Idle(s)
  {
    hide ClaimsConserved, PortsTracked, MonitorsTracked;
  }

  lemma StartNext(s: Sys)
    requires Idle(s)
    ensures s.words.WellFormed() && Enabled(s, StartStep(0, 0))
    ensures var t := Step(s, StartStep(0, 0));
            && t.starts == map[0 := Starting(0, None)] && t.mons == [] && t.owner == [] && t.v.monitors == map[]
            && t.v.cfg == s.v.cfg
  {
    assert KeyOf(s.v.cfg, 0) == Some(0);
  }

  lemma InstallNext(s: Sys)
    requires s.starts == map[0 := Starting(0, None)] && s.mons == [] && s.owner == [] && s.v.monitors == map[]
    requires s.words.WellFormed()
    ensures Enabled(s, StartOpenStep(0, true))
    ensures var t := Step(s, StartOpenStep(0, true));
            && t.words == s.words && t.starts == map[0 := Starting(0, Some(0))] && t.mons == [] && t.v.monitors == map[]
            && Enabled(t, StartCommitStep(0))
            && Step(t, StartCommitStep(0)).mons == [Monitor(0, Running(0), false, false)]
            && Step(t, StartCommitStep(0)).v.monitors == map[0 := 0]
  {
  }

  lemma DieNext(s: Sys)
    requires s.words.WellFormed() && s.mons == [Monitor(0, Running(0), false, false)] && s.v.monitors == map[0 := 0]
    ensures Enabled(s, PumpDiesStep(0))
    ensures var t := Step(s, PumpDiesStep(0));
            && t.words == s.words && Enabled(t, StopStep(0))
            && Step(t, StopStep(0)).mons == [Monitor(0, Stopping, true, true)]
  {
    var t := Step(s, PumpDiesStep(0));
    WithDeviceFrame(t.v, 0);
    hide WithDevice;
    assert t.mons == [Monitor(0, Running(0), true, true)];
  }

  /** A monitor is started, its pump dies, and it is stopped: its port stays open for good. */
  lemma PortCanBeAbandoned(w: Names.Words) returns (ss: seq<Sys>, ls: seq<Label>)
    requires w.WellFormed()
    ensures Run(ss, ls) && |ss| == |ls| + 1
    ensures 0 < |ss[|ls|].closes| && Holds(ss[|ls|], Abandoned(0), 0)
    ensures ss[|ls|].closes[0] == 0 && 0 !in ss[|ls|].v.monitors
  {
    hide Run, Ready, Step, Enabled, Inv;
    ss, ls := FindOne(w);
    RunKeepsInv(ss, ls, 1);
    FoundIsIdle(ss[1]);
    StartNext(ss[1]);
    ss, ls := ExtendRun(ss, ls, StartStep(0, 0));
    WordsHold(ss, ls, 2);
    InstallNext(ss[2]);
    ss, ls := ExtendRun(ss, ls, StartOpenStep(0, true));
    ss, ls := ExtendRun(ss, ls, StartCommitStep(0));
    WordsHold(ss, ls, 4);
    DieNext(ss[4]);
    ss, ls := ExtendRun(ss, ls, PumpDiesStep(0));
    ss, ls := ExtendRun(ss, ls, StopStep(0));
    ss, ls := ExtendRun(ss, ls, MonitorCloseStep(0)) by { CanCloseMonitor(ss[6], 0); }
    MonitorCloseReleasesPortIff(ss, ls, 6, 0);
    AbandonedPortsStayOpen(ss, ls, 7, 7, 0, 0);
    StoppedStaysStopped(ss, ls);
  }

  lemma WordsHold(ss: seq<Sys>, ls: seq<Label>, i: nat)
    requires Run(ss, ls) && i < |ss|
    ensures ss[i].words.WellFormed()
  {
    RunKeepsInv(ss, ls, i);
    InvWords(ss[i]);
  }

  lemma CanCloseMonitor(s: Sys, m: nat)
    requires m < |s.mons| && s.mons[m].status.Stopping?
    ensures Enabled(s, MonitorCloseStep(m))
  {
  }

  lemma StoppedStaysStopped(ss: seq<Sys>, ls: seq<Label>)
    requires Run(ss, ls) && |ls| == 7 && ls[5] == StopStep(0) && ls[6] == MonitorCloseStep(0)
    ensures |ss| == 8 && 0 !in ss[7].v.monitors
  {
    hide Run;
    Across(ss, ls, 5, 0, 0);
    Across(ss, ls, 6, 0, 0);
  }

  // ---- A monitor that outlives its stop ----

  lemma EditNext(s: Sys, on: bool, saveOk: bool)
    requires Inv(s) && 0 in s.v.cfg && s.v.cfg[0].uuid == 0
    ensures s.words.WellFormed() && Enabled(s, UpdateStep(0, SetMonitored(on, 0), saveOk))
    ensures var t := Step(s, UpdateStep(0, SetMonitored(on, 0), saveOk));
            && t.starts == s.starts && t.v.monitors == s.v.monitors && (Idle(s) ==> Idle(t))
            && 0 in t.v.cfg && t.v.cfg[0].uuid == 0 && t.v.cfg[0].monitored == on
  {
    InvWords(s);
    hide Inv;
    InvIsWellFormed(s);
    UpdateKeeps(s.v, 0, SetMonitored(on, 0));
    UpdatedConfig(s.v, 0, SetMonitored(on, 0));
    UuidNamesKey(s.v, 0);
    UpdateKeepsPresence(s.v, 0, SetMonitored(on, 0), 0);
    RegistryFrame(s, UpdateStep(0, SetMonitored(on, 0), saveOk));
    hide UpdateRec, WellFormed;
  }

  lemma InvIsWellFormed(s: Sys)
    requires Inv(s)
    ensures WellFormed(s.v)
  {
  }

  lemma StopNext(s: Sys)
    requires s.words.WellFormed()
    ensures Enabled(s, StopStep(0))
    ensures Step(s, StopStep(0)).starts == s.starts && Step(s, StopStep(0)).v.cfg == s.v.cfg
  {
    WithDeviceFrame(s.v, 0);
    hide WithDevice;
  }

  /** Monitoring is turned on (step 1), and off again while its start is underway (steps 3 and 4);
      the start commits, and the device is monitored although its record says it is not. */
  lemma MonitoringCanOutliveItsEnd(w: Names.Words) returns (ss: seq<Sys>, ls: seq<Label>)
    requires w.WellFormed()
    ensures Run(ss, ls) && |ss| == |ls| + 1 && |ls| > 5
    ensures ls[1] == UpdateStep(0, SetMonitored(true, 0), true) && ls[2] == StartStep(0, 0)
    ensures ls[3] == UpdateStep(0, SetMonitored(false, 0), true) && ls[4] == StopStep(0)
    ensures NoneBegins(ls, 3, 0) && 0 in ss[|ls|].v.monitors
    ensures 0 in ss[|ls|].v.cfg && ss[|ls|].v.cfg[0].uuid == 0 && !ss[|ls|].v.cfg[0].monitored
  {
    hide Run, Ready, Step, Enabled, Inv, Begins;
    var mid, labels := BeginStop(w);
    ss, ls := UnderwayCommits(mid, labels, 0, 0);
    assert ls[1] == labels[1] && ls[2] == labels[2] && ls[3] == labels[3] && ls[4] == labels[4];
    forall x | 3 <= x < |ls| ensures !Begins(ls[x], 0) {
      if x < 5 { NotAStart(ls[x]); }
    }
    Across(mid, labels, 4, 0, 0);
  }

  lemma BeginStart(w: Names.Words) returns (ss: seq<Sys>, ls: seq<Label>)
    requires w.WellFormed()
    ensures Run(ss, ls) && |ss| == 4
    ensures |ls| == 3 && ls[1] == UpdateStep(0, SetMonitored(true, 0), true) && ls[2] == StartStep(0, 0)
    ensures Underway(ss[3], 0, 0) && 0 in ss[3].v.cfg && ss[3].v.cfg[0].uuid == 0
  {
    hide Run, Ready, Step, Enabled, Inv, Idle;
    ss, ls := FindOne(w);
    RunKeepsInv(ss, ls, 1);
    FoundIsIdle(ss[1]);
    IdleIsKnown(ss[1]);
    EditNext(ss[1], true, true);
    ss, ls := ExtendRun(ss, ls, UpdateStep(0, SetMonitored(true, 0), true));
    StartNext(ss[2]);
    ss, ls := ExtendRun(ss, ls, StartStep(0, 0));
  }

  lemma IdleIsKnown(s: Sys)
    requires Idle(s)
    ensures 0 in s.v.cfg && s.v.cfg[0].uuid == 0
  {
  }

  lemma BeginStop(w: Names.Words) returns (ss: seq<Sys>, ls: seq<Label>)
    requires w.WellFormed()
    ensures Run(ss, ls) && |ss| == 6
    ensures |ls| == 5 && ls[1] == UpdateStep(0, SetMonitored(true, 0), true) && ls[2] == StartStep(0, 0)
    ensures ls[3] == UpdateStep(0, SetMonitored(false, 0), true) && ls[4] == StopStep(0)
    ensures Underway(ss[5], 0, 0) && 0 in ss[5].v.cfg && ss[5].v.cfg[0].uuid == 0 && !ss[5].v.cfg[0].monitored
  {
    hide Run, Step, Enabled, Inv, Idle;
    ss, ls := BeginStart(w);
    RunKeepsInv(ss, ls, 3);
    EditNext(ss[3], false, true);
    ss, ls := ExtendRun(ss, ls, UpdateStep(0, SetMonitored(false, 0), true));
    WordsHold(ss, ls, 4);
    StopNext(ss[4]);
    ss, ls := ExtendRun(ss, ls, StopStep(0));
  }

  lemma NotAStart(l: Label)
    ensures !l.StartStep? ==> !Begins(l, 0)
  {
  }

  /** Turning monitoring off fails to save: the record says off, and the monitor goes on. */
  lemma FailedSaveKeepsMonitoring(w: Names.Words) returns (ss: seq<Sys>, ls: seq<Label>)
    requires w.WellFormed()
    ensures Run(ss, ls) && |ss| == |ls| + 1 && |ls| > 0
    ensures ls[|ls| - 1] == UpdateStep(0, SetMonitored(false, 0), false) && 0 in ss[|ls| - 1].v.monitors
    ensures 0 in ss[|ls|].v.monitors
    ensures 0 in ss[|ls|].v.cfg && ss[|ls|].v.cfg[0].uuid == 0 && !ss[|ls|].v.cfg[0].monitored
  {
    hide Run, Ready, Step, Enabled, Inv, Begins;
    var mid, labels := BeginStart(w);
    ss, ls := UnderwayCommits(mid, labels, 0, 0);
    RunKeepsInv(ss, ls, |ls|);
    EditNext(ss[|ls|], false, false);
    ss, ls := ExtendRun(ss, ls, UpdateStep(0, SetMonitored(false, 0), false));
  }

  lemma OpenFailsNext(s: Sys)
    requires s.words.WellFormed() && s.starts == map[0 := Starting(0, None)] && s.v.monitors == map[]
    ensures Enabled(s, StartOpenStep(0, false))
    ensures var t := Step(s, StartOpenStep(0, false)); t.starts == map[] && t.v == s.v
  {
    assert s.starts - {0} == map[];
  }

  /** Monitoring is turned on (step 1), and the start that call makes cannot open the port. */
  lemma StartFails(w: Names.Words) returns (ss: seq<Sys>, ls: seq<Label>)
    requires w.WellFormed()
    ensures Run(ss, ls) && |ls| == 4 && |ss| == 5 && ls[1] == UpdateStep(0, SetMonitored(true, 0), true)
    ensures ss[4].starts == map[] && ss[4].v.monitors == map[]
    ensures 0 in ss[4].v.cfg && ss[4].v.cfg[0].uuid == 0 && ss[4].v.cfg[0].monitored
  {
    hide Run, Ready, Step, Enabled, Inv, Idle;
    ss, ls := FindOne(w);
    RunKeepsInv(ss, ls, 1);
    FoundIsIdle(ss[1]);
    IdleIsKnown(ss[1]);
    EditNext(ss[1], true, true);
    ss, ls := ExtendRun(ss, ls, UpdateStep(0, SetMonitored(true, 0), true));
    StartNext(ss[2]);
    ss, ls := ExtendRun(ss, ls, StartStep(0, 0));
    WordsHold(ss, ls, 3);
    OpenFailsNext(ss[3]);
    ss, ls := ExtendRun(ss, ls, StartOpenStep(0, false));
  }

  /** A rescan (step 4) decides to start the monitor. Before it does, monitoring is turned off and the
      monitor stopped (steps 5 and 6). */
  lemma StopBeforeOwedStart(w: Names.Words) returns (ss: seq<Sys>, ls: seq<Label>)
    requires w.WellFormed()
    ensures Run(ss, ls) && |ls| == 7 && |ss| == 8
    ensures ls[4].ScanStep? && OwesStart(ss[4], ls[4], 0)
    ensures ls[5] == UpdateStep(0, SetMonitored(false, 0), true) && ls[6] == StopStep(0)
    ensures ss[7].starts == map[] && 0 !in ss[7].v.monitors
    ensures 0 in ss[7].v.cfg && ss[7].v.cfg[0].uuid == 0 && !ss[7].v.cfg[0].monitored
  {
    hide Run, Step, Enabled, Inv, Idle, OwesStart;
    ss, ls := StartFails(w);
    RunKeepsInv(ss, ls, 4);
    var find := Rediscovers(ss[4], 0);
    ss, ls := ExtendRun(ss, ls, find);
    RunKeepsInv(ss, ls, 5);
    EditNext(ss[5], false, true);
    ss, ls := ExtendRun(ss, ls, UpdateStep(0, SetMonitored(false, 0), true));
    WordsHold(ss, ls, 6);
    StopNext(ss[6]);
    ss, ls := ExtendRun(ss, ls, StopStep(0));
    Across(ss, ls, 6, 0, 0);
  }

  /** Then no start is underway, and the one the rescan owes still begins and commits: the device is
      monitored although its record says it is not, and nobody turned monitoring on again. */
  lemma OwedStartOutlivesTheStop(w: Names.Words) returns (ss: seq<Sys>, ls: seq<Label>)
    requires w.WellFormed()
    ensures Run(ss, ls) && |ss| == |ls| + 1 && |ls| > 7
    ensures ls[4].ScanStep? && OwesStart(ss[4], ls[4], 0)
    ensures ls[5] == UpdateStep(0, SetMonitored(false, 0), true) && ls[6] == StopStep(0)
    ensures NoneUnderway(ss[7], 0) && OnlyOwedStarts(ss, ls, 7, 0)
    ensures 0 in ss[|ls|].v.monitors
    ensures 0 in ss[|ls|].v.cfg && ss[|ls|].v.cfg[0].uuid == 0 && !ss[|ls|].v.cfg[0].monitored
  {
    hide Run, OwesStart, OnlyOwedStarts;
    var mid, labels := StopBeforeOwedStart(w);
    OwedSince(mid, labels);
    ss, ls := OwedCommits(mid, labels, 0);
    assert ss[4] == mid[4] && ss[7] == mid[7] && ls[4] == labels[4] && ls[5] == labels[5] && ls[6] == labels[6];
  }

  lemma OwedSince(ss: seq<Sys>, ls: seq<Label>)
    requires |ls| == 7 && |ss| == 8 && OwesStart(ss[4], ls[4], 0) && !ls[5].StartStep? && !ls[6].StartStep?
    ensures Owed(ss, ls, 0, 7) > 0
  {
    hide OwesStart;
    assert Owed(ss, ls, 0, 5) > 0;
    assert Owed(ss, ls, 0, 6) > 0;
  }
}
