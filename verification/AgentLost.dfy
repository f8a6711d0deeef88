// When a vanished device gets a session back: exactly when its open outlived the close that was
// meant for it; and when hiding and kill-all hold (internal/agent/core.go).
module AgentLost {
  import opened Prelude
  import opened Registry
  import opened AgentSystem
  import opened AgentTheorems
  import opened AgentRescan
  import opened AgentSettings

  /** The steps that carry an open to its registration. */
  predicate Completes(l: Label, sid: Sid) {
    l == LookupStep(sid) || l == OpenStep(sid, true) || l == RegisterStep(sid)
  }

  ghost predicate OnlyCompletes(ls: seq<Label>, a: nat, sid: Sid) {
    forall x | a <= x < |ls| :: Completes(ls[x], sid)
  }

  lemma LookupNext(s: Sys, sid: Sid)
    requires s.words.WellFormed() && sid in s.opens && s.opens[sid].phase.Waiting?
    ensures Enabled(s, LookupStep(sid))
    ensures var t := Step(s, LookupStep(sid));
            && t.v == s.v && sid in t.opens && t.opens[sid].uuid == s.opens[sid].uuid && t.opens[sid].phase.Looked?
  {
  }

  lemma OpenNext(s: Sys, sid: Sid)
    requires s.words.WellFormed() && sid in s.opens && s.opens[sid].phase.Looked?
    ensures Enabled(s, OpenStep(sid, true))
    ensures var t := Step(s, OpenStep(sid, true));
            && t.v == s.v && sid in t.opens && t.opens[sid].uuid == s.opens[sid].uuid && t.opens[sid].phase.Holding?
  {
  }

  lemma RegisterNext(s: Sys, sid: Sid)
    requires Inv(s) && sid in s.opens && s.opens[sid].phase.Holding? && Exposed(s.v, s.opens[sid].uuid)
    ensures Enabled(s, RegisterStep(sid)) && s.words.WellFormed()
    ensures var t := Step(s, RegisterStep(sid));
            && t.v.devices == s.v.devices
            && sid in t.v.sessions && t.v.sessions[sid].uuid == s.opens[sid].uuid
  {
    hide Inv, Exposed, Step, Enabled;
    CanRegister(s, sid);
    RegisterStepIs(s, sid);
  }

  lemma CanRegister(s: Sys, sid: Sid)
    requires Inv(s) && sid in s.opens && s.opens[sid].phase.Holding? && Exposed(s.v, s.opens[sid].uuid)
    ensures s.words.WellFormed() && Enabled(s, RegisterStep(sid)) && RegisterSucceeds(s.v, sid, s.opens[sid].uuid)
  {
    RegisterFindsItsClaim(s, sid);
    hide Exposed;
  }

  /** An open in flight on an exposed device can always run on to a session, online or not, with no
      other step in between and the device table as it was. */
  lemma OpenCanComplete(ss: seq<Sys>, ls: seq<Label>, sid: Sid) returns (tt: seq<Sys>, ms: seq<Label>)
    requires Run(ss, ls) && |ss| == |ls| + 1 && sid in ss[|ls|].opens
    requires Exposed(ss[|ls|].v, ss[|ls|].opens[sid].uuid)
    ensures Extends(ss, ls, tt, ms) && OnlyCompletes(ms, |ls|, sid)
    ensures tt[|ms|].v.devices == ss[|ls|].v.devices
    ensures sid in tt[|ms|].v.sessions && tt[|ms|].v.sessions[sid].uuid == ss[|ls|].opens[sid].uuid
  {
    hide Run, Inv, Step, Exposed, Enabled;
    tt, ms := ss, ls;
    RunKeepsInv(ss, ls, |ls|);
    InvWords(ss[|ls|]);
    if ss[|ls|].opens[sid].phase.Waiting? {
      LookupNext(tt[|ms|], sid);
      tt, ms := ExtendRun(tt, ms, LookupStep(sid));
      KeepsWords(ss[|ls|], LookupStep(sid));
    }
    if tt[|ms|].opens[sid].phase.Looked? {
      OpenNext(tt[|ms|], sid);
      tt, ms := ExtendRun(tt, ms, OpenStep(sid, true));
    }
    RunKeepsInv(tt, ms, |ms|);
    RegisterNext(tt[|ms|], sid);
    tt, ms := ExtendRun(tt, ms, RegisterStep(sid));
  }

  lemma KeepsWords(s: Sys, l: Label)
    requires s.words.WellFormed() && Enabled(s, l)
    ensures Step(s, l).words == s.words
  {
    StepKeepsWords(s, l);
    hide Step;
  }

  lemma ExposingExposes(s: Sys, k: Key, u: Uuid)
    requires Inv(s) && k in s.v.cfg && s.v.cfg[k].uuid == u
    ensures s.words.WellFormed()
    ensures var t := Step(s, UpdateStep(u, SetExposed(true), true)); Exposed(t.v, u) && t.opens == s.opens
  {
    hide ClaimsConserved, PortsTracked, MonitorsTracked;
    WithDeviceKeeps(s.v, u);
    hide WithDevice;
    var v := UpdateRec(s.v, u, SetExposed(true));
    assert KeyOf(s.v.cfg, u) == Some(k);
    assert k in v.devices && v.devices[k].rec.uuid == u && v.devices[k].rec.exposed;
  }

  /** Some continuation that never finds the device again has a session on it. */
  ghost predicate CanComeBack(ss: seq<Sys>, ls: seq<Label>, k: Key, u: Uuid) {
    exists tt: seq<Sys>, ms: seq<Label> ::
      Extends(ss, ls, tt, ms) && NeverFound(ms, k, |ls|, |ms|) && !NoSessionOn(tt[|ms|], u)
  }

  /** A rescan (step i) missed a device claimed by sid. At any later point without another sighting
      of the device a session on it can exist from then on exactly when sid still works on it. */
  lemma GoneForGoodIff(ss: seq<Sys>, ls: seq<Label>, i: nat, k: Key, u: Uuid, sid: Sid)
    requires Run(ss, ls) && i < |ls| && Misses(ss, ls, i, k, u) && StillOurs(ss[i].v, u, sid)
    requires NeverFound(ls, k, i + 1, |ls|)
    ensures |ss| == |ls| + 1
    ensures !CanComeBack(ss, ls, k, u) <==> !WorksOn(ss[|ls|], sid, u)
  {
    hide Run, Misses, NeverFound, NoSessionOn, Exposed, Inv, Off;
    RunShape(ss, ls);
    OnlyTheHolderRemains(ss, ls, i, |ls|, k, u, sid);
    OffIsKnown(ss[|ls|].v, k, u);
    if sid in ss[|ls|].opens && ss[|ls|].opens[sid].uuid == u {
      var tt, ms := ExposeAndComplete(ss, ls, k, u, sid);
      SessionIsOn(tt[|ms|], u, sid);
    } else if WorksOn(ss[|ls|], sid, u) {
      SessionIsOn(ss[|ls|], u, sid);
      SessionRemains(ss, ls, k, u);
    } else if CanComeBack(ss, ls, k, u) {
      var tt: seq<Sys>, ms: seq<Label> :|
        Extends(ss, ls, tt, ms) && NeverFound(ms, k, |ls|, |ms|) && !NoSessionOn(tt[|ms|], u);
      MissesInPrefix(ss, ls, tt, ms, i, k, u);
      NeverFoundJoins(ls, ms, k, i + 1);
      assert tt[i] == ss[i] && tt[|ls|] == ss[|ls|];
      var x := SessionOn(tt[|ms|], u);
      OnlyTheHolderRemains(tt, ms, i, |ms|, k, u, x);
      WorkedBefore(tt, ms, i, |ls|, sid, u);
      WorkedBefore(tt, ms, |ls|, |ms|, sid, u);
      assert false;
    }
  }

  lemma SessionRemains(ss: seq<Sys>, ls: seq<Label>, k: Key, u: Uuid)
    requires Run(ss, ls) && |ss| == |ls| + 1 && !NoSessionOn(ss[|ls|], u)
    ensures CanComeBack(ss, ls, k, u)
  {
    hide Run, NoSessionOn;
    assert Extends(ss, ls, ss, ls) && NeverFound(ls, k, |ls|, |ls|);
  }

  lemma SessionOn(s: Sys, u: Uuid) returns (sid: Sid)
    requires !NoSessionOn(s, u)
    ensures sid in s.v.sessions && s.v.sessions[sid].uuid == u
  {
    sid :| sid in s.v.sessions && s.v.sessions[sid].uuid == u;
  }

  /** In particular at the close of sid: the device is rid of its session exactly when the open of sid
      is not in flight by then. */
  lemma LostForGoodIff(ss: seq<Sys>, ls: seq<Label>, i: nat, k: Key, u: Uuid, sid: Sid)
    requires Run(ss, ls) && i + 1 < |ls| && Misses(ss, ls, i, k, u) && StillOurs(ss[i].v, u, sid)
    requires ls[|ls| - 1] == CloseStep(sid) && NeverFound(ls, k, i + 1, |ls|)
    ensures |ss| == |ls| + 1
    ensures !CanComeBack(ss, ls, k, u) <==> sid !in ss[|ls| - 1].opens
  {
    hide Run, Misses, NeverFound, NoSessionOn, Inv, CanComeBack;
    GoneForGoodIff(ss, ls, i, k, u, sid);
    var m := |ls| - 1;
    if sid in ss[m].opens {
      OrphanStaysOpen(ss, ls, i, u, sid);
    } else {
      CloseResult(ss, ls, m, sid);
      ClaimHolder(ss, ls, i, u, u);
      WorkedBefore(ss, ls, i, m, sid, u);
      SessionsAreNeverReopened(ss, ls, m, m + 1, sid);
    }
  }

  lemma SessionsLast(s: Sys, l: Label, t: Sys, sid: Sid)
    requires Effect(s, l, t) && sid in s.v.sessions && l != CloseStep(sid) && sid !in s.opens
    ensures sid in t.v.sessions && t.v.sessions[sid] == s.v.sessions[sid]
  {
    hide Exposed, Online;
  }

  /** A session lasts until it is closed. */
  lemma {:induction false} SessionsLastUntilClosed(ss: seq<Sys>, ls: seq<Label>, i: nat, j: nat, sid: Sid)
    requires Run(ss, ls) && i <= j < |ss| && sid in ss[i].v.sessions
    requires forall x | i <= x < j && x < |ls| :: ls[x] != CloseStep(sid)
    ensures sid in ss[j].v.sessions && ss[j].v.sessions[sid] == ss[i].v.sessions[sid]
    decreases j - i
  {
    hide Run, Effect, Inv, Step, Enabled;
    RunShape(ss, ls);
    if i < j {
      SessionsLastUntilClosed(ss, ls, i, j - 1, sid);
      RunStep(ss, ls, j - 1);
      ClaimsAreOpensAndSessions(ss, ls, j - 1, ss[j - 1].v.sessions[sid].uuid, sid);
      SessionsLast(ss[j - 1], ls[j - 1], ss[j], sid);
    }
  }

  /** A session is registered on a device that a rescan (step i) did not find, whatever came of the
      rescan, and the run ends when the rescan has made the closes it owes, with no other close of the
      session. The device is then rid of it, until it is found again, exactly when the rescan
      completed; otherwise the session is still there. */
  lemma VanishedSessionEndsIff(ss: seq<Sys>, ls: seq<Label>, i: nat, k: Key, u: Uuid, sid: Sid)
    requires Run(ss, ls) && i < |ls| && Overlooks(ss, ls, i, k, u) && NeverFound(ls, k, i + 1, |ls|)
    requires sid in ss[i].v.sessions && ss[i].v.sessions[sid].uuid == u
    requires (exists m :: i < m < |ls| && ls[m] == CloseStep(sid)) <==> HandsOver(OutcomeAt(ss, ls, i), sid)
    ensures |ss| == |ls| + 1
    ensures !CanComeBack(ss, ls, k, u) <==> OutcomeAt(ss, ls, i).Scanned?
    ensures !OutcomeAt(ss, ls, i).Scanned? ==> sid in ss[|ls|].v.sessions && ss[|ls|].v.sessions[sid].uuid == u
  {
    hide Run, NeverFound, NoSessionOn, Inv, Scan, CanComeBack;
    RunShape(ss, ls);
    RegistryIsWellFormed(ss, ls, i);
    ClaimsAreOpensAndSessions(ss, ls, i, u, sid);
    ClaimHolder(ss, ls, i, u, u);
    MissedIsHandedOverIff(ss[i].v, ss[i].words, ls[i].ports, ls[i].minted, ls[i].saveOk, k, sid);
    if OutcomeAt(ss, ls, i).Scanned? {
      var m :| i < m < |ls| && ls[m] == CloseStep(sid);
      SessionsAreNeverReopened(ss, ls, i, |ls|, sid);
      GoneForGoodIff(ss, ls, i, k, u, sid);
    } else {
      SessionsLastUntilClosed(ss, ls, i, |ls|, sid);
      SessionIsOn(ss[|ls|], u, sid);
      SessionRemains(ss, ls, k, u);
    }
  }

  lemma RegistryIsWellFormed(ss: seq<Sys>, ls: seq<Label>, i: nat)
    requires Run(ss, ls) && i < |ss|
    ensures WellFormed(ss[i].v)
  {
    hide Run, WellFormed;
    RunKeepsInv(ss, ls, i);
  }

  lemma OffIsKnown(v: View, k: Key, u: Uuid)
    requires Off(v, k, u)
    ensures k in v.cfg && v.cfg[k].uuid == u
  {
  }

  lemma SessionIsOn(s: Sys, u: Uuid, sid: Sid)
    requires sid in s.v.sessions && s.v.sessions[sid].uuid == u
    ensures !NoSessionOn(s, u)
  {
  }

  lemma MissesInPrefix(ss: seq<Sys>, ls: seq<Label>, tt: seq<Sys>, ms: seq<Label>, i: nat, k: Key, u: Uuid)
    requires ss <= tt && ls <= ms && Misses(ss, ls, i, k, u)
    ensures Misses(tt, ms, i, k, u)
  {
    assert tt[i] == ss[i] && ms[i] == ls[i];
  }

  lemma NeverFoundJoins(ls: seq<Label>, ms: seq<Label>, k: Key, a: nat)
    requires ls <= ms && a <= |ls| && NeverFound(ls, k, a, |ls|) && NeverFound(ms, k, |ls|, |ms|)
    ensures NeverFound(ms, k, a, |ms|)
  {
    forall x | a <= x < |ms| ensures !Finds(ms[x], k) {
      if x < |ls| { assert ms[x] == ls[x] && !Finds(ls[x], k); }
    }
  }

  /** Closing an id whose open is in flight changes nothing. */
  lemma OrphanStaysOpen(ss: seq<Sys>, ls: seq<Label>, i: nat, u: Uuid, sid: Sid)
    requires Run(ss, ls) && |ss| == |ls| + 1 && i + 1 < |ls| && StillOurs(ss[i].v, u, sid)
    requires ls[|ls| - 1] == CloseStep(sid) && sid in ss[|ls| - 1].opens
    ensures sid in ss[|ls|].opens && ss[|ls|].opens[sid].uuid == u
  {
    hide Run;
    var m := |ls| - 1;
    CloseResult(ss, ls, m, sid);
    ClaimsAreOpensAndSessions(ss, ls, m, u, sid);
    ReleaseClosesIffRegistered(ss, ls, i, m, u);
  }

  lemma ExposeAndComplete(ss: seq<Sys>, ls: seq<Label>, k: Key, u: Uuid, sid: Sid)
    returns (tt: seq<Sys>, ms: seq<Label>)
    requires Run(ss, ls) && |ss| == |ls| + 1 && k in ss[|ls|].v.cfg && ss[|ls|].v.cfg[k].uuid == u
    requires sid in ss[|ls|].opens && ss[|ls|].opens[sid].uuid == u
    ensures Extends(ss, ls, tt, ms) && NeverFound(ms, k, |ls|, |ms|) && NoneClaims(ms, |ls|)
    ensures sid in tt[|ms|].v.sessions && tt[|ms|].v.sessions[sid].uuid == u
  {
    hide Run, Inv, Exposed, Step;
    RunKeepsInv(ss, ls, |ls|);
    ExposingExposes(ss[|ls|], k, u);
    var mid, labels := ExtendRun(ss, ls, UpdateStep(u, SetExposed(true), true));
    tt, ms := OpenCanComplete(mid, labels, sid);
    forall x | |ls| <= x < |ms| ensures !Finds(ms[x], k) && !ms[x].ClaimStep? {
      if x >= |labels| { assert Completes(ms[x], sid); } else { assert ms[x] == labels[x]; }
    }
  }

  // ---- Hiding ----

  /** Some continuation that never exposes the device again has a session on it. */
  ghost predicate CanBeServed(ss: seq<Sys>, ls: seq<Label>, u: Uuid) {
    exists tt: seq<Sys>, ms: seq<Label> ::
      Extends(ss, ls, tt, ms) && NeverExposed(ms, u, |ls|, |ms|) && !NoSessionOn(tt[|ms|], u)
  }

  /** A device with a session is hidden (step i), and the run ends when the call has made the release
      it owes, which it does only when the record was saved, with no other close of the session. The
      device then serves no session, until it is exposed again, exactly when saving worked; otherwise
      the session is still there, on a device that is hidden. */
  lemma HidingEndsTheSessionIff(ss: seq<Sys>, ls: seq<Label>, i: nat, u: Uuid, saveOk: bool, sid: Sid)
    requires Run(ss, ls) && i < |ls| && i < |ss| && ls[i] == UpdateStep(u, SetExposed(false), saveOk)
    requires NeverExposed(ls, u, i + 1, |ls|) && sid in ss[i].v.sessions && ss[i].v.sessions[sid].uuid == u
    requires (exists m :: i < m < |ls| && ls[m] == CloseStep(sid)) <==> saveOk
    ensures |ss| == |ls| + 1 && Hidden(ss[|ls|].v, u)
    ensures !CanBeServed(ss, ls, u) <==> saveOk
    ensures !saveOk ==> sid in ss[|ls|].v.sessions && ss[|ls|].v.sessions[sid].uuid == u
  {
    hide Run, NoSessionOn, Inv, Hidden, NeverExposed;
    RunShape(ss, ls);
    HiddenAfterUpdate(ss, ls, i, u, saveOk);
    HiddenSessionsOnlyShrink(ss, ls, i + 1, |ls|, u, sid);
    if !saveOk {
      SessionsLastUntilClosed(ss, ls, i, |ls|, sid);
      SessionIsOn(ss[|ls|], u, sid);
      NothingLater(ls, u);
      assert Extends(ss, ls, ss, ls);
    } else if CanBeServed(ss, ls, u) {
      var m :| i < m < |ls| && ls[m] == CloseStep(sid);
      var tt: seq<Sys>, ms: seq<Label> :|
        Extends(ss, ls, tt, ms) && NeverExposed(ms, u, |ls|, |ms|) && !NoSessionOn(tt[|ms|], u);
      var x := SessionOn(tt[|ms|], u);
      assert tt[i] == ss[i] && tt[i + 1] == ss[i + 1] && ms[m] == ls[m] && ms[i] == ls[i];
      NeverExposedJoins(ls, ms, u, i + 1);
      HiddenSessionsOnlyShrink(tt, ms, i + 1, |ms|, u, x);
      WasThere(tt, ms, i, u, saveOk);
      SessionsAreExclusive(tt, ms, i, x, sid, u);
      ClaimsAreOpensAndSessions(tt, ms, i, u, sid);
      ClaimHolder(tt, ms, i, u, u);
      SessionsAreNeverReopened(tt, ms, i, |ms|, sid);
      assert false;
    }
  }

  lemma NothingLater(ls: seq<Label>, u: Uuid)
    ensures NeverExposed(ls, u, |ls|, |ls|)
  {
  }

  lemma NeverExposedJoins(ls: seq<Label>, ms: seq<Label>, u: Uuid, a: nat)
    requires ls <= ms && a <= |ls| && NeverExposed(ls, u, a, |ls|) && NeverExposed(ms, u, |ls|, |ms|)
    ensures NeverExposed(ms, u, a, |ms|)
  {
    forall x | a <= x < |ms| ensures !Exposes(ms[x], u) {
      if x < |ls| { assert ms[x] == ls[x] && !Exposes(ls[x], u); }
    }
  }

  /** An update leaves the sessions alone. */
  lemma WasThere(ss: seq<Sys>, ls: seq<Label>, i: nat, u: Uuid, saveOk: bool)
    requires Run(ss, ls) && i < |ls| && ls[i] == UpdateStep(u, SetExposed(false), saveOk) && |ss| == |ls| + 1
    ensures ss[i + 1].v.sessions == ss[i].v.sessions
  {
    hide Run, Inv, Step, Enabled;
    RunStep(ss, ls, i);
  }

  // ---- Kill-all ----

  ghost predicate NoneClaims(ls: seq<Label>, a: nat) { forall x | a <= x < |ls| :: !ls[x].ClaimStep? }

  lemma EffectOnOpens(s: Sys, l: Label, t: Sys, sid: Sid)
    requires Effect(s, l, t) && sid in t.opens
    ensures (sid in s.opens && t.opens[sid].uuid == s.opens[sid].uuid) || Exposed(s.v, t.opens[sid].uuid)
  {
    hide Exposed, Online;
  }

  lemma ExposedIsKnown(s: Sys, u: Uuid)
    requires Inv(s) && Exposed(s.v, u)
    ensures u in UuidsOf(s.v.cfg)
  {
    hide ClaimsConserved, PortsTracked, MonitorsTracked;
    var k :| k in s.v.devices && s.v.devices[k].rec.uuid == u;
    assert s.v.cfg[k].uuid == u;
  }

  lemma NothingOpen(ss: seq<Sys>, ls: seq<Label>)
    requires Run(ss, ls)
    ensures |ss| == |ls| + 1 && ss[0].opens == map[]
  {
    hide Linked;
  }

  /** The device of an open in flight has a record. */
  lemma {:induction false} OpensAreKnown(ss: seq<Sys>, ls: seq<Label>, i: nat, sid: Sid)
    requires Run(ss, ls) && i < |ss| && sid in ss[i].opens
    ensures ss[i].opens[sid].uuid in UuidsOf(ss[i].v.cfg)
  {
    hide *;
    NothingOpen(ss, ls);
    if i > 0 {
      RunStep(ss, ls, i - 1);
      EffectOnOpens(ss[i - 1], ls[i - 1], ss[i], sid);
      var u := ss[i].opens[sid].uuid;
      if sid in ss[i - 1].opens && u == ss[i - 1].opens[sid].uuid {
        OpensAreKnown(ss, ls, i - 1, sid);
      } else {
        ExposedIsKnown(ss[i - 1], u);
      }
      KnownStays(ss, ls, i - 1, u);
    }
  }

  lemma QuietEffect(s: Sys, l: Label, t: Sys)
    requires Effect(s, l, t) && !l.ClaimStep? && s.opens == map[] && s.v.sessions == map[]
    ensures t.opens == map[] && t.v.sessions == map[]
  {
    hide Exposed;
  }

  lemma {:induction false} QuietStaysQuiet(ss: seq<Sys>, ls: seq<Label>, i: nat, j: nat)
    requires Run(ss, ls) && i <= j < |ss| && j <= |ls| && ss[i].opens == map[] && ss[i].v.sessions == map[]
    requires forall x | i <= x < j :: !ls[x].ClaimStep?
    ensures ss[j].opens == map[] && ss[j].v.sessions == map[]
    decreases j - i
  {
    hide Run, Inv, Effect, Step, Enabled;
    if i < j {
      QuietStaysQuiet(ss, ls, i, j - 1);
      RunStep(ss, ls, j - 1);
      QuietEffect(ss[j - 1], ls[j - 1], ss[j]);
    }
  }

  /** Some continuation in which nobody opens anything new has a session. */
  ghost predicate CanHaveSession(ss: seq<Sys>, ls: seq<Label>) {
    exists tt: seq<Sys>, ms: seq<Label> ::
      Extends(ss, ls, tt, ms) && NoneClaims(ms, |ls|) && tt[|ms|].v.sessions != map[]
  }

  /** The kill switch holds until somebody opens a device anew exactly when it leaves no session and
      finds no open in flight: one in flight can still become a session, which CloseAll did not list. */
  lemma KillAllHoldsIff(ss: seq<Sys>, ls: seq<Label>)
    requires Run(ss, ls) && |ss| == |ls| + 1
    ensures !CanHaveSession(ss, ls) <==> ss[|ls|].v.sessions == map[] && ss[|ls|].opens == map[]
  {
    hide Run;
    var s := ss[|ls|];
    if s.v.sessions != map[] {
      assert Extends(ss, ls, ss, ls);
    } else if s.opens != map[] {
      var sid :| sid in s.opens;
      OpensAreKnown(ss, ls, |ls|, sid);
      var k :| k in s.v.cfg && s.v.cfg[k].uuid == s.opens[sid].uuid;
      var tt, ms := ExposeAndComplete(ss, ls, k, s.opens[sid].uuid, sid);
    } else if CanHaveSession(ss, ls) {
      var tt: seq<Sys>, ms: seq<Label> :|
        Extends(ss, ls, tt, ms) && NoneClaims(ms, |ls|) && tt[|ms|].v.sessions != map[];
      QuietStaysQuiet(tt, ms, |ls|, |ms|);
      assert false;
    }
  }
}
