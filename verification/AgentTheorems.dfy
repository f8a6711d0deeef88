// What holds on every run of the agent core, whatever the interleaving.
module AgentTheorems {
  import opened Prelude
  import opened Registry
  import opened AgentSystem
  import Names

  // ---- What a step does to opens, sessions and claims ----

  ghost predicate Began(s: Sys, t: Sys, sid: Sid) {
    && sid !in s.used && sid in t.opens
    && t.opens == s.opens[sid := t.opens[sid]] && t.used == s.used + {sid}
    && t.v.claims == s.v.claims[t.opens[sid].uuid := sid] && t.v.sessions == s.v.sessions
    && t.opens[sid].uuid !in s.v.claims && |s.v.sessions| < MAX_SESSIONS
    && Exposed(s.v, t.opens[sid].uuid) && Online(s.v, t.opens[sid].uuid)
  }

  ghost predicate Gave(s: Sys, t: Sys, sid: Sid) {
    && sid in s.opens && t.opens == s.opens - {sid} && t.used == s.used
    && t.v.claims == s.v.claims - {s.opens[sid].uuid} && t.v.sessions == s.v.sessions
  }

  ghost predicate Registered(s: Sys, t: Sys, sid: Sid) {
    && sid in s.opens && sid in t.v.sessions && t.opens == s.opens - {sid} && t.used == s.used
    && t.v.claims == s.v.claims && t.v.sessions == s.v.sessions[sid := t.v.sessions[sid]]
    && t.v.sessions[sid].uuid == s.opens[sid].uuid && Exposed(s.v, s.opens[sid].uuid)
  }

  ghost predicate Ended(s: Sys, t: Sys, sid: Sid) {
    && sid in s.v.sessions && t.opens == s.opens && t.used == s.used
    && t.v.claims == s.v.claims - {s.v.sessions[sid].uuid} && t.v.sessions == s.v.sessions - {sid}
  }

  ghost predicate Effect(s: Sys, l: Label, t: Sys) {
    match l
    case ClaimStep(_, _, sid) => SameClaims(s, t) || Began(s, t, sid)
    case OpenStep(sid, ok) => if ok then SameClaims(s, t) else Gave(s, t, sid)
    case RegisterStep(sid) => Registered(s, t, sid) || Gave(s, t, sid)
    case CloseStep(sid) => if sid in s.v.sessions then Ended(s, t, sid) else SameClaims(s, t)
    case _ => SameClaims(s, t)
  }

  lemma ClaimEffect(s: Sys, wordId: string, lines: Lines, sid: Sid)
    requires Inv(s) && sid !in s.used
    ensures var t := AfterClaim(s, wordId, lines, sid); SameClaims(s, t) || Began(s, t, sid)
  {
    hide Inv, Exposed, Online;
    if ClaimOutcomeOf(s.v, wordId, lines).Claimed? {
      ClaimedMeans(s.v, wordId, lines);
      hide ClaimOutcomeOf;
    }
  }

  lemma OpenEffect(s: Sys, sid: Sid, ok: bool)
    requires sid in s.opens && s.opens[sid].phase.Looked? && (s.opens[sid].phase.monitor.Some? ==> ok)
    ensures var t := AfterOpen(s, sid, ok); if ok then SameClaims(s, t) else Gave(s, t, sid)
  {
  }

  lemma RegisterEffect(s: Sys, sid: Sid)
    requires Inv(s) && sid in s.opens && s.opens[sid].phase.Holding?
    ensures var t := AfterRegister(s, sid); Registered(s, t, sid) || Gave(s, t, sid)
  {
    RegisterFindsItsClaim(s, sid);
    hide Inv, Exposed;
  }

  lemma StepEffect(s: Sys, l: Label)
    requires Inv(s) && Enabled(s, l)
    ensures Effect(s, l, Step(s, l))
  {
    hide SameClaims, Began, Gave, Registered, AfterClaim, AfterOpen, AfterRegister, Exposed, Online;
    if l.ClaimStep? {
      ClaimEffect(s, l.wordId, l.lines, l.sid);
    } else if l.OpenStep? {
      OpenEffect(s, l.sid, l.ok);
    } else if l.RegisterStep? {
      RegisterEffect(s, l.sid);
    } else if l.CloseStep? {
      CloseEffect(s, l.sid);
    } else {
      OtherEffect(s, l);
      hide Step;
    }
  }

  lemma CloseEffect(s: Sys, sid: Sid)
    ensures var t := AfterClose(s, sid); if sid in s.v.sessions then Ended(s, t, sid) else SameClaims(s, t)
  {
  }

  lemma OtherEffect(s: Sys, l: Label)
    requires s.words.WellFormed() && Enabled(s, l)
    requires !l.ClaimStep? && !l.OpenStep? && !l.RegisterStep? && !l.CloseStep?
    ensures SameClaims(s, Step(s, l))
  {
    OtherStepsKeepClaims(s, l);
    hide Step;
  }

  lemma RunShape(ss: seq<Sys>, ls: seq<Label>)
    requires Run(ss, ls)
    ensures |ss| == |ls| + 1
    ensures Load(ss[0]) == 0 && ss[0].used == {}
  {
  }

  lemma RunStep(ss: seq<Sys>, ls: seq<Label>, i: nat)
    requires Run(ss, ls) && i < |ls|
    ensures Inv(ss[i]) && Inv(ss[i + 1]) && Enabled(ss[i], ls[i]) && ss[i + 1] == Step(ss[i], ls[i])
    ensures Effect(ss[i], ls[i], ss[i + 1])
  {
    hide Run, Inv, Enabled, Step, Effect;
    RunInit(ss, ls);
    RunKeepsInv(ss, ls, i);
    RunKeepsInv(ss, ls, i + 1);
    RunLink(ss, ls, i);
    StepEffect(ss[i], ls[i]);
  }

  // ---- Continuing a run ----

  ghost predicate Extends(ss: seq<Sys>, ls: seq<Label>, tt: seq<Sys>, ms: seq<Label>) {
    Run(tt, ms) && |tt| == |ms| + 1 && ss <= tt && ls <= ms
  }

  lemma ExtendRun(ss: seq<Sys>, ls: seq<Label>, l: Label) returns (tt: seq<Sys>, ms: seq<Label>)
    requires Run(ss, ls) && |ss| == |ls| + 1 && Enabled(ss[|ls|], l)
    ensures ss[|ls|].words.WellFormed() && tt == ss + [Step(ss[|ls|], l)] && ms == ls + [l]
    ensures Extends(ss, ls, tt, ms)
  {
    assert ss[|ls|].words.WellFormed() by {
      RunKeepsInv(ss, ls, |ls|);
      InvWords(ss[|ls|]);
    }
    hide Init, Enabled, Step;
    tt, ms := ss + [Step(ss[|ls|], l)], ls + [l];
    forall i | 0 <= i < |ms| ensures Linked(tt[i], ms[i], tt[i + 1]) {
      if i < |ls| { assert Linked(ss[i], ls[i], ss[i + 1]); }
    }
  }

  // ---- Exclusivity and claims ----

  /** Sid works on device u, as an open in flight or as a registered session. */
  ghost predicate WorksOn(s: Sys, sid: Sid, u: Uuid) {
    (sid in s.opens && s.opens[sid].uuid == u) || (sid in s.v.sessions && s.v.sessions[sid].uuid == u)
  }

  /** The claim table records exactly the opens in flight and the sessions, which are disjoint. */
  lemma ClaimsAreOpensAndSessions(ss: seq<Sys>, ls: seq<Label>, i: nat, u: Uuid, sid: Sid)
    requires Run(ss, ls) && i < |ss|
    ensures StillOurs(ss[i].v, u, sid) <==> WorksOn(ss[i], sid, u)
    ensures !(sid in ss[i].opens && sid in ss[i].v.sessions)
  {
    RunKeepsInv(ss, ls, i);
    if StillOurs(ss[i].v, u, sid) { assert OpenHas(ss[i], u) || SessionHas(ss[i], u); }
  }

  /** At most one session, and at most one open or session, per device. */
  lemma SessionsAreExclusive(ss: seq<Sys>, ls: seq<Label>, i: nat, a: Sid, b: Sid, u: Uuid)
    requires Run(ss, ls) && i < |ss| && WorksOn(ss[i], a, u) && WorksOn(ss[i], b, u)
    ensures a == b && StillOurs(ss[i].v, u, a)
  {
    ClaimsAreOpensAndSessions(ss, ls, i, u, a);
    ClaimsAreOpensAndSessions(ss, ls, i, u, b);
  }

  /** Whether a step is one that can end the given open or session. */
  predicate Ends(l: Label, sid: Sid) {
    match l
    case CloseStep(x) => x == sid
    case OpenStep(x, _) => x == sid
    case RegisterStep(x) => x == sid
    case _ => false
  }

  lemma EffectOnOthers(s: Sys, l: Label, t: Sys, other: Sid, u: Uuid)
    requires Effect(s, l, t) && WorksOn(s, other, u) && other in s.used && !Ends(l, other)
    ensures WorksOn(t, other, u)
  {
    hide SameClaims, Began, Gave, Registered, Ended, WorksOn;
    if SameClaims(s, t) {
      SameClaimsOnOthers(s, t, other, u);
    } else if l.ClaimStep? {
      BeganOnOthers(s, t, l.sid, other, u);
    } else if l.CloseStep? {
      EndedOnOthers(s, t, l.sid, other, u);
    } else if Gave(s, t, l.sid) {
      GaveOnOthers(s, t, l.sid, other, u);
    } else {
      RegisteredOnOthers(s, t, l.sid, other, u);
    }
  }

  lemma SameClaimsOnOthers(s: Sys, t: Sys, other: Sid, u: Uuid)
    requires SameClaims(s, t) && WorksOn(s, other, u)
    ensures WorksOn(t, other, u)
  {
  }

  lemma BeganOnOthers(s: Sys, t: Sys, sid: Sid, other: Sid, u: Uuid)
    requires Began(s, t, sid) && WorksOn(s, other, u) && other in s.used
    ensures WorksOn(t, other, u)
  {
    hide Exposed, Online;
  }

  lemma EndedOnOthers(s: Sys, t: Sys, sid: Sid, other: Sid, u: Uuid)
    requires Ended(s, t, sid) && WorksOn(s, other, u) && other != sid
    ensures WorksOn(t, other, u)
  {
  }

  lemma GaveOnOthers(s: Sys, t: Sys, sid: Sid, other: Sid, u: Uuid)
    requires Gave(s, t, sid) && WorksOn(s, other, u) && other != sid
    ensures WorksOn(t, other, u)
  {
  }

  lemma RegisteredOnOthers(s: Sys, t: Sys, sid: Sid, other: Sid, u: Uuid)
    requires Registered(s, t, sid) && WorksOn(s, other, u) && other != sid
    ensures WorksOn(t, other, u)
  {
    hide Exposed;
  }

  /** Ending one open or session never touches the claim of another. */
  lemma OthersKeepTheirClaims(ss: seq<Sys>, ls: seq<Label>, i: nat, other: Sid, u: Uuid)
    requires Run(ss, ls) && i < |ls| && WorksOn(ss[i], other, u) && !Ends(ls[i], other)
    ensures WorksOn(ss[i + 1], other, u) && StillOurs(ss[i + 1].v, u, other)
  {
    RunStep(ss, ls, i);
    assert other in ss[i].used;
    EffectOnOthers(ss[i], ls[i], ss[i + 1], other, u);
    hide Inv, Step, Effect, Enabled, Run;
    ClaimsAreOpensAndSessions(ss, ls, i + 1, u, other);
  }

  /** The guard RegisterStep calls stillOurs never fails in any run: only exposure decides. */
  lemma StillOursAlwaysHolds(ss: seq<Sys>, ls: seq<Label>, i: nat, sid: Sid)
    requires Run(ss, ls) && i < |ss| && sid in ss[i].opens
    ensures StillOurs(ss[i].v, ss[i].opens[sid].uuid, sid)
    ensures RegisterSucceeds(ss[i].v, sid, ss[i].opens[sid].uuid) <==> Exposed(ss[i].v, ss[i].opens[sid].uuid)
  {
    RunKeepsInv(ss, ls, i);
    RegisterFindsItsClaim(ss[i], sid);
  }

  // ---- Session cap ----

  lemma InsertSize<K, V>(m: map<K, V>, k: K, v: V)
    requires k !in m
    ensures |m[k := v].Keys| == |m.Keys| + 1
  {
    assert m[k := v].Keys == m.Keys + {k};
  }

  lemma RemoveSize<K, V>(m: map<K, V>, k: K)
    requires k in m
    ensures |(m - {k}).Keys| == |m.Keys| - 1
  {
    assert (m - {k}).Keys == m.Keys - {k};
  }

  function Load(s: Sys): nat { |s.v.sessions.Keys| + |s.opens.Keys| }

  lemma BeginLoad(s: Sys, t: Sys, sid: Sid)
    requires Began(s, t, sid)
    ensures Load(t) <= MAX_SESSIONS - 1 + |t.opens.Keys|
  {
    hide Exposed, Online;
    assert |s.v.sessions| == |s.v.sessions.Keys|;
  }

  lemma GiveLoad(s: Sys, t: Sys, sid: Sid)
    requires Gave(s, t, sid)
    ensures Load(t) < Load(s)
  {
    RemoveSize(s.opens, sid);
  }

  lemma RegisterLoad(s: Sys, t: Sys, sid: Sid)
    requires Registered(s, t, sid) && sid !in s.v.sessions
    ensures Load(t) == Load(s)
  {
    hide Exposed;
    RemoveSize(s.opens, sid);
    InsertSize(s.v.sessions, sid, t.v.sessions[sid]);
  }

  lemma EndLoad(s: Sys, t: Sys, sid: Sid)
    requires Ended(s, t, sid)
    ensures Load(t) < Load(s)
  {
    RemoveSize(s.v.sessions, sid);
  }

  lemma SameClaimsLoad(s: Sys, t: Sys)
    requires SameClaims(s, t)
    ensures Load(t) == Load(s)
  {
  }

  lemma EffectOnLoad(s: Sys, l: Label, t: Sys)
    requires Effect(s, l, t) && (l.RegisterStep? ==> l.sid !in s.v.sessions)
    ensures Load(t) <= Load(s) || Load(t) <= MAX_SESSIONS - 1 + |t.opens.Keys|
  {
    hide SameClaims, Began, Gave, Registered, Ended, Load;
    if SameClaims(s, t) {
      SameClaimsLoad(s, t);
    } else if l.ClaimStep? {
      BeginLoad(s, t, l.sid);
    } else if l.CloseStep? {
      EndLoad(s, t, l.sid);
    } else if Gave(s, t, l.sid) {
      GiveLoad(s, t, l.sid);
    } else {
      RegisterLoad(s, t, l.sid);
    }
  }

  ghost predicate AtMostInFlight(ss: seq<Sys>, k: nat) {
    forall i | 0 <= i < |ss| :: |ss[i].opens.Keys| <= k
  }

  lemma InFlightAt(ss: seq<Sys>, k: nat, i: nat)
    requires AtMostInFlight(ss, k) && i < |ss|
    ensures |ss[i].opens.Keys| <= k
  {
  }

  lemma {:induction false} LoadIsBounded(ss: seq<Sys>, ls: seq<Label>, k: nat, i: nat)
    requires Run(ss, ls) && i < |ss| && k >= 1 && AtMostInFlight(ss, k)
    ensures Load(ss[i]) <= MAX_SESSIONS + k - 1
  {
    hide *;
    RunShape(ss, ls);
    InFlightAt(ss, k, i);
    if i > 0 {
      LoadIsBounded(ss, ls, k, i - 1);
      RunStep(ss, ls, i - 1);
      NewIdsAreFresh(ss, ls, i - 1);
      EffectOnLoad(ss[i - 1], ls[i - 1], ss[i]);
    }
  }

  lemma NewIdsAreFresh(ss: seq<Sys>, ls: seq<Label>, i: nat)
    requires Run(ss, ls) && i < |ls|
    ensures ls[i].RegisterStep? ==> ls[i].sid !in ss[i].v.sessions
  {
    RunStep(ss, ls, i);
    hide Run, Step, Effect, Linked;
  }

  /** With at most k opens in flight at once, sessions never exceed MAX_SESSIONS + k - 1. */
  lemma SessionsAreBounded(ss: seq<Sys>, ls: seq<Label>, k: nat, i: nat)
    requires Run(ss, ls) && i < |ss| && k >= 1 && AtMostInFlight(ss, k)
    ensures |ss[i].v.sessions.Keys| <= MAX_SESSIONS + k - 1
  {
    LoadIsBounded(ss, ls, k, i);
  }

  // ---- Revocation ----

  ghost predicate Hidden(v: View, u: Uuid) {
    forall k | k in v.cfg && v.cfg[k].uuid == u :: !v.cfg[k].exposed
  }

  predicate Exposes(l: Label, u: Uuid) {
    l.UpdateStep? && l.uuid == u && l.edit == SetExposed(true)
  }

  ghost predicate NoSessionOn(s: Sys, u: Uuid) {
    forall sid | sid in s.v.sessions :: s.v.sessions[sid].uuid != u
  }

  lemma HiddenMeansNotExposed(v: View, u: Uuid)
    requires WellFormed(v) && Hidden(v, u)
    ensures !Exposed(v, u)
  {
  }

  lemma {:induction false} ReconcileKeepsHidden(
      v: View, w: Names.Words, ports: seq<PortInfo>, minted: seq<Identity>, n: nat, u: Uuid)
    requires w.WellFormed() && |minted| == |ports| && n <= |ports| && Hidden(v, u)
    ensures Hidden(Reconcile(v, w, ports, minted, n).0, u)
  {
    if n > 0 { ReconcileKeepsHidden(v, w, ports, minted, n - 1, u); }
  }

  lemma UpdateKeepsHidden(v: View, x: Uuid, e: Edit, u: Uuid)
    requires Hidden(v, u) && (x == u ==> e != SetExposed(true))
    ensures Hidden(UpdateRec(v, x, e), u)
  {
  }

  lemma RenameKeepsHidden(v: View, w: Names.Words, x: Uuid, draws: Names.Draws, u: Uuid)
    requires w.WellFormed() && Hidden(v, u)
    ensures Hidden(Rename(v, w, x, draws), u)
  {
  }

  lemma StepKeepsHidden(s: Sys, l: Label, u: Uuid)
    requires s.words.WellFormed() && Enabled(s, l) && Hidden(s.v, u) && !Exposes(l, u)
    ensures Hidden(Step(s, l).v, u)
  {
    if l.ScanStep? {
      ReconcileKeepsHidden(s.v, s.words, l.ports, l.minted, |l.ports|, u);
    } else if l.UpdateStep? {
      hide Hidden, UpdateRec;
      UpdateKeepsHidden(s.v, l.uuid, l.edit, u);
    } else if l.RenameStep? {
      hide Hidden, Rename;
      RenameKeepsHidden(s.v, s.words, l.uuid, l.draws, u);
    } else {
      StepKeepsConfig(s, l);
      hide Step;
    }
  }

  lemma StepKeepsConfig(s: Sys, l: Label)
    requires s.words.WellFormed() && Enabled(s, l) && !RegistryOnly(l)
    ensures Step(s, l).v.cfg == s.v.cfg
  {
    if l.StartStep? || l.StopStep? {
      WithDeviceFrame(s.v, l.uuid);
    } else {
      OtherStepsKeepRegistry(s, l);
      hide Step;
    }
  }

  lemma EffectOnSessions(s: Sys, l: Label, t: Sys, sid: Sid)
    requires Effect(s, l, t) && sid in t.v.sessions
    ensures (sid in s.v.sessions && t.v.sessions[sid] == s.v.sessions[sid] && l != CloseStep(sid))
            || (l == RegisterStep(sid) && sid in s.opens && t.v.sessions[sid].uuid == s.opens[sid].uuid
                && Exposed(s.v, s.opens[sid].uuid))
  {
    hide Exposed, Online;
  }

  lemma EffectOnSpent(s: Sys, l: Label, t: Sys, sid: Sid)
    requires Effect(s, l, t) && sid in s.used && sid !in s.opens
    ensures sid in t.used && sid !in t.opens
    ensures sid in t.v.sessions ==> sid in s.v.sessions && l != CloseStep(sid)
  {
    hide Exposed, Online;
  }

  /** The only step that adds a session is the registration of that very session. */
  lemma SessionsComeFromRegistration(ss: seq<Sys>, ls: seq<Label>, i: nat, sid: Sid)
    requires Run(ss, ls) && i < |ls| && sid in ss[i + 1].v.sessions
    ensures (sid in ss[i].v.sessions && ss[i + 1].v.sessions[sid] == ss[i].v.sessions[sid])
            || (ls[i] == RegisterStep(sid) && sid in ss[i].opens
                && ss[i + 1].v.sessions[sid].uuid == ss[i].opens[sid].uuid
                && Exposed(ss[i].v, ss[i].opens[sid].uuid))
  {
    RunStep(ss, ls, i);
    hide Run, Linked, Inv, Step, Enabled, Exposed;
    EffectOnSessions(ss[i], ls[i], ss[i + 1], sid);
  }

  lemma HiddenAcross(ss: seq<Sys>, ls: seq<Label>, i: nat, u: Uuid, sid: Sid)
    requires Run(ss, ls) && i < |ls| && Hidden(ss[i].v, u) && !Exposes(ls[i], u)
    ensures Hidden(ss[i + 1].v, u)
    ensures sid in ss[i + 1].v.sessions && ss[i + 1].v.sessions[sid].uuid == u ==>
              sid in ss[i].v.sessions && ss[i].v.sessions[sid].uuid == u
  {
    RunShape(ss, ls);
    RunStep(ss, ls, i);
    hide Run, Step, Enabled, Effect, Hidden, Exposed;
    StepKeepsHidden(ss[i], ls[i], u);
    HiddenMeansNotExposed(ss[i].v, u);
    hide Inv;
    if sid in ss[i + 1].v.sessions { EffectOnSessions(ss[i], ls[i], ss[i + 1], sid); }
  }

  ghost predicate NeverExposed(ls: seq<Label>, u: Uuid, a: nat, b: nat) {
    forall x | a <= x < b && x < |ls| :: !Exposes(ls[x], u)
  }

  /** While a device stays hidden, a session on it can only be one that was already there. */
  lemma {:induction false} HiddenSessionsOnlyShrink(ss: seq<Sys>, ls: seq<Label>, a: nat, b: nat, u: Uuid, sid: Sid)
    requires Run(ss, ls) && a <= b < |ss| && Hidden(ss[a].v, u) && NeverExposed(ls, u, a, b)
    ensures Hidden(ss[b].v, u)
    ensures sid in ss[b].v.sessions && ss[b].v.sessions[sid].uuid == u ==>
              sid in ss[a].v.sessions && ss[a].v.sessions[sid].uuid == u
    decreases b - a
  {
    hide *;
    RunShape(ss, ls);
    if a < b {
      NeverExposedSplit(ls, u, a, b);
      HiddenSessionsOnlyShrink(ss, ls, a, b - 1, u, sid);
      HiddenAcross(ss, ls, b - 1, u, sid);
    }
  }

  lemma NeverExposedSplit(ls: seq<Label>, u: Uuid, a: nat, b: nat)
    requires a < b <= |ls| && NeverExposed(ls, u, a, b)
    ensures NeverExposed(ls, u, a, b - 1) && !Exposes(ls[b - 1], u)
  {
  }

  lemma NeverExposedPart(ls: seq<Label>, u: Uuid, a: nat, b: nat, c: nat, d: nat)
    requires a <= c && d <= b && NeverExposed(ls, u, a, b)
    ensures NeverExposed(ls, u, c, d)
  {
  }

  lemma HideTakesEffect(s: Sys, u: Uuid, saveOk: bool)
    requires Inv(s)
    ensures Hidden(Step(s, UpdateStep(u, SetExposed(false), saveOk)).v, u)
  {
    WithDeviceFrame(s.v, u);
    hide ClaimsConserved, PortsTracked, MonitorsTracked, WithDevice;
  }

  /** Hiding a device: the record is updated at step i, the claim is read in state k, and the
      session it names, if any, is closed at step m. From then on no session on the device
      exists until some later step exposes it again. */
  lemma HideRevokes(ss: seq<Sys>, ls: seq<Label>, u: Uuid, saveOk: bool, i: nat, k: nat, m: nat, j: nat)
    requires Run(ss, ls) && i < k <= m < j < |ss|
    requires ls[i] == UpdateStep(u, SetExposed(false), saveOk)
    requires u in ss[k].v.claims ==> ls[m] == CloseStep(ss[k].v.claims[u])
    requires NeverExposed(ls, u, i + 1, j)
    ensures NoSessionOn(ss[j], u)
  {
    HiddenAfterUpdate(ss, ls, i, u, saveOk);
    hide Run, Hidden, NeverExposed;
    forall sid | sid in ss[j].v.sessions ensures ss[j].v.sessions[sid].uuid != u {
      if ss[j].v.sessions[sid].uuid == u {
        NeverExposedPart(ls, u, i + 1, j, i + 1, k);
        HiddenSessionsOnlyShrink(ss, ls, i + 1, k, u, sid);
        NeverExposedPart(ls, u, i + 1, j, k, m + 1);
        HiddenSessionsOnlyShrink(ss, ls, k, m + 1, u, sid);
        NeverExposedPart(ls, u, i + 1, j, m + 1, j);
        HiddenSessionsOnlyShrink(ss, ls, m + 1, j, u, sid);
        ClaimsAreOpensAndSessions(ss, ls, k, u, sid);
        ClosedSessionIsGone(ss, ls, m, sid);
      }
    }
  }

  lemma HiddenAfterUpdate(ss: seq<Sys>, ls: seq<Label>, i: nat, u: Uuid, saveOk: bool)
    requires Run(ss, ls) && i < |ls| && ls[i] == UpdateStep(u, SetExposed(false), saveOk)
    ensures Hidden(ss[i + 1].v, u)
  {
    RunStep(ss, ls, i);
    hide Run, Effect;
    HideTakesEffect(ss[i], u, saveOk);
  }

  lemma ClosedSessionIsGone(ss: seq<Sys>, ls: seq<Label>, m: nat, sid: Sid)
    requires Run(ss, ls) && m < |ls| && ls[m] == CloseStep(sid)
    ensures sid !in ss[m + 1].v.sessions
  {
    hide *;
    RunShape(ss, ls);
    RunStep(ss, ls, m);
    EffectOfClose(ss[m], ss[m + 1], sid);
  }

  lemma EffectOfClose(s: Sys, t: Sys, sid: Sid)
    requires Effect(s, CloseStep(sid), t)
    ensures sid !in t.v.sessions
  {
  }

  lemma EffectBackwards(s: Sys, l: Label, t: Sys, sid: Sid, u: Uuid)
    requires Effect(s, l, t) && WorksOn(t, sid, u) && sid in s.used
    ensures WorksOn(s, sid, u)
  {
    hide Exposed, Online;
  }

  lemma EffectOnUsed(s: Sys, l: Label, t: Sys, sid: Sid)
    requires Effect(s, l, t) && sid in s.used
    ensures sid in t.used
  {
    hide Exposed, Online;
  }

  /** A session id never moves to another device. */
  lemma {:induction false} WorkedBefore(ss: seq<Sys>, ls: seq<Label>, i: nat, j: nat, sid: Sid, u: Uuid)
    requires Run(ss, ls) && i <= j < |ss| && sid in ss[i].used
    ensures sid in ss[j].used
    ensures WorksOn(ss[j], sid, u) ==> WorksOn(ss[i], sid, u)
    decreases j - i
  {
    hide *;
    RunShape(ss, ls);
    if i < j {
      WorkedBefore(ss, ls, i, j - 1, sid, u);
      RunStep(ss, ls, j - 1);
      EffectOnUsed(ss[j - 1], ls[j - 1], ss[j], sid);
      if WorksOn(ss[j], sid, u) { EffectBackwards(ss[j - 1], ls[j - 1], ss[j], sid, u); }
    }
  }

  /** An open or session goes on until a step that ends it. */
  lemma {:induction false} WorksUntilEnded(ss: seq<Sys>, ls: seq<Label>, i: nat, j: nat, sid: Sid, u: Uuid)
    requires Run(ss, ls) && i <= j < |ss| && WorksOn(ss[i], sid, u)
    requires forall x | i <= x < j && x < |ls| :: !Ends(ls[x], sid)
    ensures WorksOn(ss[j], sid, u)
    decreases j - i
  {
    hide Run, WorksOn, Ends;
    RunShape(ss, ls);
    if i < j {
      WorksUntilEnded(ss, ls, i, j - 1, sid, u);
      OthersKeepTheirClaims(ss, ls, j - 1, sid, u);
    }
  }

  lemma ClaimHolder(ss: seq<Sys>, ls: seq<Label>, i: nat, u: Uuid, v: Uuid)
    requires Run(ss, ls) && i < |ss| && u in ss[i].v.claims
    ensures WorksOn(ss[i], ss[i].v.claims[u], v) <==> v == u
    ensures ss[i].v.claims[u] in ss[i].used
  {
    hide Run;
    RunKeepsInv(ss, ls, i);
    assert OpenHas(ss[i], u) || SessionHas(ss[i], u);
  }

  lemma CloseResult(ss: seq<Sys>, ls: seq<Label>, m: nat, sid: Sid)
    requires Run(ss, ls) && m < |ls| && ls[m] == CloseStep(sid)
    ensures |ss| == |ls| + 1
    ensures if sid in ss[m].v.sessions
            then ss[m + 1].v.sessions == ss[m].v.sessions - {sid}
            else ss[m + 1] == ss[m]
  {
    hide Run, Inv, Effect;
    RunShape(ss, ls);
    RunStep(ss, ls, m);
  }

  /** ReleaseDevice reads the claim in state k, answers true, and closes the session it names at
      step m. The call ends a session, that one and no other, exactly when it is registered by then;
      otherwise nothing changes, because its open is still in flight or has already ended. */
  lemma ReleaseClosesIffRegistered(ss: seq<Sys>, ls: seq<Label>, k: nat, m: nat, u: Uuid)
    requires Run(ss, ls) && k <= m < |ls| && k < |ss| && u in ss[k].v.claims && ls[m] == CloseStep(ss[k].v.claims[u])
    ensures m + 1 < |ss|
    ensures var sid := ss[k].v.claims[u];
            if sid in ss[m].v.sessions
            then ss[m].v.sessions[sid].uuid == u && ss[m + 1].v.sessions == ss[m].v.sessions - {sid}
            else
              && ss[m + 1] == ss[m]
              && if sid in ss[m].opens then ss[m].opens[sid].uuid == u else exists x | k <= x < m :: Ends(ls[x], sid)
  {
    hide Run, Ends;
    var sid := ss[k].v.claims[u];
    CloseResult(ss, ls, m, sid);
    ClaimHolder(ss, ls, k, u, u);
    if sid in ss[m].v.sessions {
      WorkedBefore(ss, ls, k, m, sid, ss[m].v.sessions[sid].uuid);
      ClaimHolder(ss, ls, k, u, ss[m].v.sessions[sid].uuid);
    } else if sid in ss[m].opens {
      WorkedBefore(ss, ls, k, m, sid, ss[m].opens[sid].uuid);
      ClaimHolder(ss, ls, k, u, ss[m].opens[sid].uuid);
    } else if forall x | k <= x < m :: !Ends(ls[x], sid) {
      WorksUntilEnded(ss, ls, k, m, sid, u);
    }
  }

  // ---- Kill-all ----

  lemma {:induction false} SessionsAreNeverReopened(ss: seq<Sys>, ls: seq<Label>, i: nat, j: nat, sid: Sid)
    requires Run(ss, ls) && i <= j < |ss| && sid in ss[i].used && sid !in ss[i].opens
    ensures sid in ss[j].used && sid !in ss[j].opens
    ensures sid in ss[j].v.sessions ==> sid in ss[i].v.sessions && forall x | i <= x < j :: ls[x] != CloseStep(sid)
    decreases j - i
  {
    hide *;
    RunShape(ss, ls);
    if i < j {
      SessionsAreNeverReopened(ss, ls, i, j - 1, sid);
      RunStep(ss, ls, j - 1);
      EffectOnSpent(ss[j - 1], ls[j - 1], ss[j], sid);
    }
  }

  lemma {:induction false} NewSessionWasRegistered(ss: seq<Sys>, ls: seq<Label>, i: nat, j: nat, sid: Sid)
    requires Run(ss, ls) && i <= j < |ss| && sid in ss[j].v.sessions && sid !in ss[i].v.sessions
    ensures exists x :: i <= x < j && ls[x] == RegisterStep(sid)
    decreases j - i
  {
    SessionsComeFromRegistration(ss, ls, j - 1, sid);
    hide Run, Exposed;
    if sid in ss[j - 1].v.sessions {
      NewSessionWasRegistered(ss, ls, i, j - 1, sid);
    } else {
      assert ls[j - 1] == RegisterStep(sid);
    }
  }

  /** CloseAll lists the sessions of state i and closes each of them by state j. Whatever happens
      in between, none of them survives; only sessions registered meanwhile can exist. */
  lemma CloseAllSevers(ss: seq<Sys>, ls: seq<Label>, i: nat, j: nat)
    requires Run(ss, ls) && i <= j < |ss|
    requires forall sid | sid in ss[i].v.sessions :: exists m | i <= m < j :: ls[m] == CloseStep(sid)
    ensures ss[i].v.sessions.Keys !! ss[j].v.sessions.Keys
    ensures forall sid | sid in ss[j].v.sessions :: exists x | i <= x < j :: ls[x] == RegisterStep(sid)
  {
    RunKeepsInv(ss, ls, i);
    forall sid | sid in ss[i].v.sessions ensures sid !in ss[j].v.sessions {
      SessionsAreNeverReopened(ss, ls, i, j, sid);
    }
    forall sid | sid in ss[j].v.sessions ensures exists x | i <= x < j :: ls[x] == RegisterStep(sid) {
      NewSessionWasRegistered(ss, ls, i, j, sid);
    }
  }

  // ---- Ports ----

  /** Every port the opener returned has exactly one holder, counting "closed" as one. It is
      closed at most once, and is abandoned open only by a monitor whose pump died. */
  lemma EveryPortHasOneHolder(ss: seq<Sys>, ls: seq<Label>, i: nat, p: nat)
    requires Run(ss, ls) && i < |ss| && p < |ss[i].closes|
    ensures exists o :: Holds(ss[i], o, p)
    ensures forall o, q | Holds(ss[i], o, p) && Holds(ss[i], q, p) :: o == q
    ensures ss[i].closes[p] <= 1
  {
    RunKeepsInv(ss, ls, i);
    var s := ss[i];
    assert Holds(s, s.owner[p], p);
    forall o | Holds(s, o, p) ensures o == s.owner[p] {
      if o.ByMonitor? || o.ByStopper? || o.Abandoned? {
        assert MonitorOwner(o.mid, s.mons[o.mid]) == Some(o);
        assert Owns(s, o, p);
      }
    }
  }

  /** A port that is neither held nor closed was left open by a monitor whose pump had died. */
  lemma UnclosedPortIsHeldOrAbandoned(ss: seq<Sys>, ls: seq<Label>, i: nat, p: nat)
    requires Run(ss, ls) && i < |ss| && p < |ss[i].closes|
    requires forall sid :: !Holds(ss[i], ByOpen(sid), p) && !Holds(ss[i], BySession(sid), p)
    requires forall t :: !Holds(ss[i], ByStart(t), p)
    requires forall t :: !Holds(ss[i], ByMonitor(t), p) && !Holds(ss[i], ByStopper(t), p)
    requires p !in ss[i].closing
    ensures ss[i].closes[p] == 1 ||
            exists m | 0 <= m < |ss[i].mons| :: ss[i].mons[m].port == p && ss[i].mons[m].pumpDied
  {
    EveryPortHasOneHolder(ss, ls, i, p);
    var o :| Holds(ss[i], o, p);
    match o {
      case Abandoned(m) => assert ss[i].mons[m].port == p && ss[i].mons[m].pumpDied;
      case _ =>
    }
  }

  /** Closing a stopped monitor hands its port over for closing exactly when its pump is still alive;
      a port whose pump has died is left open. */
  lemma MonitorCloseReleasesPortIff(ss: seq<Sys>, ls: seq<Label>, i: nat, m: nat)
    requires Run(ss, ls) && i < |ls| && ls[i] == MonitorCloseStep(m)
    ensures m < |ss[i].mons| && ss[i].mons[m].port < |ss[i + 1].closes|
    ensures var p, died := ss[i].mons[m].port, ss[i].mons[m].pumpDied;
            (p in ss[i + 1].closing <==> !died) && (Holds(ss[i + 1], Abandoned(m), p) <==> died)
  {
    RunStep(ss, ls, i);
    hide Run, Effect;
    ClosedMonitorsPort(ss[i], m);
  }

  lemma ClosedMonitorsPort(s: Sys, m: nat)
    requires Inv(s) && m < |s.mons| && s.mons[m].status.Stopping?
    ensures var t, p := AfterMonitorClose(s, m), s.mons[m].port;
            && p < |t.closes| && (p in t.closing <==> !s.mons[m].pumpDied)
            && (Holds(t, Abandoned(m), p) <==> s.mons[m].pumpDied)
  {
    assert Owns(s, ByStopper(m), s.mons[m].port) by { assert MonitorOwner(m, s.mons[m]) == Some(ByStopper(m)); }
  }

  /** A port handed over for closing is closed by its close step, and by then has had no other. */
  lemma HandedOverPortsClose(ss: seq<Sys>, ls: seq<Label>, i: nat, p: nat)
    requires Run(ss, ls) && i < |ls| && ls[i] == PortCloseStep(p)
    ensures p < |ss[i].closes| && ss[i].closes[p] == 0 && p in ss[i].closing
    ensures p < |ss[i + 1].closes| && ss[i + 1].closes[p] == 1 && p !in ss[i + 1].closing
    ensures Holds(ss[i + 1], Closed, p)
  {
    RunStep(ss, ls, i);
    hide Run, Effect;
    ClosesPort(ss[i], p);
  }

  lemma ClosesPort(s: Sys, p: nat)
    requires Inv(s) && p in s.closing
    ensures var t := AfterPortClose(s, p);
            && p < |s.closes| && s.closes[p] == 0 && p < |t.closes| && t.closes[p] == 1 && p !in t.closing
            && Holds(t, Closed, p)
  {
    assert Owns(s, ByCloser, p);
  }

  lemma FinishedMonitorStays(s: Sys, l: Label, m: nat)
    requires Inv(s) && Enabled(s, l) && m < |s.mons| && s.mons[m].status.Finished?
    ensures m < |Step(s, l).mons| && Step(s, l).mons[m] == s.mons[m]
  {
    hide PortsTracked, ClaimsConserved, WellFormed;
    if !l.StartCommitStep? && !l.StopStep? && !l.MonitorCloseStep? && !l.PumpDiesStep? {
      hide Step;
      OtherStepsKeepMonitors(s, l);
    } else if l.StopStep? {
      WithDeviceFrame(s.v, l.uuid);
      hide WithDevice;
    }
  }

  lemma PortsAreNotForgotten(s: Sys, l: Label)
    requires s.words.WellFormed() && Enabled(s, l)
    ensures |Step(s, l).closes| >= |s.closes|
  {
    hide WithDevice, Scan, UpdateRec, Rename, ClaimOutcomeOf, RegisterSucceeds, StartPath;
  }

  lemma AbandonedAcross(ss: seq<Sys>, ls: seq<Label>, i: nat, m: nat, p: nat)
    requires Run(ss, ls) && i < |ls| && p < |ss[i].closes| && Holds(ss[i], Abandoned(m), p)
    ensures p < |ss[i + 1].closes| && Holds(ss[i + 1], Abandoned(m), p)
  {
    RunStep(ss, ls, i);
    hide Run, Effect, Step, Enabled, ClaimsConserved, PortsTracked, MonitorsTracked, WellFormed;
    FinishedMonitorStays(ss[i], ls[i], m);
    PortsAreNotForgotten(ss[i], ls[i]);
  }

  /** A port so abandoned is never closed. */
  lemma {:induction false} AbandonedPortsStayOpen(ss: seq<Sys>, ls: seq<Label>, i: nat, j: nat, m: nat, p: nat)
    requires Run(ss, ls) && i <= j < |ss| && p < |ss[i].closes| && Holds(ss[i], Abandoned(m), p)
    ensures p < |ss[j].closes| && Holds(ss[j], Abandoned(m), p) && ss[j].closes[p] == 0
    decreases j - i
  {
    hide Run;
    RunShape(ss, ls);
    if i < j {
      AbandonedPortsStayOpen(ss, ls, i, j - 1, m, p);
      AbandonedAcross(ss, ls, j - 1, m, p);
    }
    EveryPortHasOneHolder(ss, ls, j, p);
    assert ss[j].closes[p] > 0 ==> Holds(ss[j], Closed, p);
  }

  /** A monitor runs on a device exactly when it is the one in the table: never two at once. */
  lemma MonitorsAreExclusive(ss: seq<Sys>, ls: seq<Label>, i: nat, u: Uuid, m: nat)
    requires Run(ss, ls) && i < |ss| && m < |ss[i].mons|
    ensures ss[i].mons[m].status == Running(u) <==> u in ss[i].v.monitors && ss[i].v.monitors[u] == m
  {
    hide Run, ClaimsConserved, PortsTracked, WellFormed;
    RunKeepsInv(ss, ls, i);
  }

  // ---- Names ----

  /** Handles and uuids stay pairwise distinct, so opening by name does not depend on map order. */
  lemma NamesStayDistinct(ss: seq<Sys>, ls: seq<Label>, i: nat, k: Key)
    requires Run(ss, ls) && i < |ss|
    ensures DistinctIds(ss[i].v.cfg)
    ensures k in ss[i].v.devices ==> KeyNamed(ss[i].v, ss[i].v.devices[k].rec.wordId) == Some(k)
  {
    RunKeepsInv(ss, ls, i);
    var v := ss[i].v;
    if k in v.devices {
      var other := KeyNamed(v, v.devices[k].rec.wordId);
      assert other.Some? && v.cfg[other.value].wordId == v.cfg[k].wordId;
    }
  }

  lemma {:induction false} ReconciledNames(
      v: View, w: Names.Words, ports: seq<PortInfo>, minted: seq<Identity>, n: nat, k: Key)
    requires w.WellFormed() && |minted| == |ports| && n <= |ports|
    requires k in Reconcile(v, w, ports, minted, n).0.cfg
    ensures var r := Reconcile(v, w, ports, minted, n).0.cfg[k];
            (k in v.cfg && r == v.cfg[k]) || (k !in v.cfg && Names.Valid(w, r.wordId) && !r.exposed)
  {
    if n > 0 {
      var (u, ok) := Reconcile(v, w, ports, minted, n - 1);
      if k in u.cfg { ReconciledNames(v, w, ports, minted, n - 1, k); }
      Names.GeneratedIsValidAndFree(w, minted[n - 1].draws, WordsOf(u.cfg));
      if k !in u.cfg && k in v.cfg { ReconcileGrows(v, w, ports, minted, n - 1); }
    }
  }

  lemma {:induction false} ReconcileGrows(v: View, w: Names.Words, ports: seq<PortInfo>, minted: seq<Identity>, n: nat)
    requires w.WellFormed() && |minted| == |ports| && n <= |ports|
    ensures v.cfg.Keys <= Reconcile(v, w, ports, minted, n).0.cfg.Keys
  {
    if n > 0 { ReconcileGrows(v, w, ports, minted, n - 1); }
  }

  ghost predicate NameKept(before: View, w: Names.Words, after: View, k: Key) {
    k in after.cfg ==>
      (k in before.cfg && after.cfg[k].wordId == before.cfg[k].wordId) || Names.Valid(w, after.cfg[k].wordId)
  }

  lemma UpdateNames(v: View, w: Names.Words, u: Uuid, e: Edit, k: Key)
    ensures NameKept(v, w, UpdateRec(v, u, e), k)
  {
    hide Names.Valid;
  }

  lemma RenameNames(v: View, w: Names.Words, u: Uuid, draws: Names.Draws, k: Key)
    requires w.WellFormed()
    ensures NameKept(v, w, Rename(v, w, u, draws), k)
  {
    Names.GeneratedIsValidAndFree(w, draws, WordsOf(v.cfg));
    hide Names.Valid, Names.Generated;
  }

  lemma StepNames(s: Sys, l: Label, k: Key)
    requires s.words.WellFormed() && Enabled(s, l)
    ensures NameKept(s.v, s.words, Step(s, l).v, k)
  {
    hide Names.Valid;
    if l.ScanStep? {
      if k in Step(s, l).v.cfg { ReconciledNames(s.v, s.words, l.ports, l.minted, |l.ports|, k); }
    } else if l.RenameStep? {
      hide Rename, NameKept;
      RenameNames(s.v, s.words, l.uuid, l.draws, k);
    } else if l.UpdateStep? {
      hide UpdateRec, NameKept;
      UpdateNames(s.v, s.words, l.uuid, l.edit, k);
    } else {
      StepKeepsConfig(s, l);
      hide Step;
    }
  }

  lemma NamesAcross(ss: seq<Sys>, ls: seq<Label>, i: nat, k: Key)
    requires Run(ss, ls) && i < |ls| && k in ss[i + 1].v.cfg
    ensures (k in ss[i].v.cfg && ss[i + 1].v.cfg[k].wordId == ss[i].v.cfg[k].wordId)
            || Names.Valid(ss[i].words, ss[i + 1].v.cfg[k].wordId)
  {
    hide Run, Step, Linked, Enabled, Effect, ClaimsConserved, PortsTracked, MonitorsTracked, Names.Valid;
    RunShape(ss, ls);
    RunStep(ss, ls, i);
    StepNames(ss[i], ls[i], k);
  }

  /** A handle the run did not start with is well formed. */
  lemma {:induction false} NewNamesAreValid(ss: seq<Sys>, ls: seq<Label>, i: nat, k: Key)
    requires Run(ss, ls) && i < |ss| && k in ss[i].v.cfg
    ensures var id := ss[i].v.cfg[k].wordId;
            (k in ss[0].v.cfg && id == ss[0].v.cfg[k].wordId) || Names.Valid(ss[0].words, id)
    ensures ss[i].words == ss[0].words
  {
    hide *;
    RunShape(ss, ls);
    WordsConstant(ss, ls, i);
    if i > 0 {
      WordsConstant(ss, ls, i - 1);
      NamesAcross(ss, ls, i - 1, k);
      if k in ss[i - 1].v.cfg { NewNamesAreValid(ss, ls, i - 1, k); }
    }
  }

  lemma WordsAcross(ss: seq<Sys>, ls: seq<Label>, i: nat)
    requires Run(ss, ls) && i < |ls|
    ensures ss[i + 1].words == ss[i].words
  {
    hide Run, Step, Linked, Enabled, Effect, ClaimsConserved, PortsTracked, MonitorsTracked;
    RunShape(ss, ls);
    RunStep(ss, ls, i);
    StepKeepsWords(ss[i], ls[i]);
  }

  lemma {:induction false} WordsConstant(ss: seq<Sys>, ls: seq<Label>, i: nat)
    requires Run(ss, ls) && i < |ss|
    ensures ss[i].words == ss[0].words
  {
    hide *;
    RunShape(ss, ls);
    if i > 0 {
      WordsAcross(ss, ls, i - 1);
      WordsConstant(ss, ls, i - 1);
    }
  }
}
