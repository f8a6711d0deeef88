// Where a session comes from, on every run of the agent core: the claim that was granted for it and
// what its open found to read from (internal/agent/core.go).
module AgentSessions {
  import opened Prelude
  import opened Registry
  import opened AgentSystem
  import opened AgentTheorems

  /** Step x grants the claim of sid on device u, under that handle. */
  ghost predicate GrantedAt(ss: seq<Sys>, ls: seq<Label>, x: nat, sid: Sid, u: Uuid, wordId: string) {
    && x < |ls| && x < |ss| && ls[x].ClaimStep? && ls[x].sid == sid && ls[x].wordId == wordId
    && ClaimOutcomeOf(ss[x].v, wordId, ls[x].lines).Claimed?
    && ClaimOutcomeOf(ss[x].v, wordId, ls[x].lines).uuid == u
  }

  /** At step y the open of sid looks for a monitor of u, and this is what it finds. */
  ghost predicate LookedAt(ss: seq<Sys>, ls: seq<Label>, y: nat, sid: Sid, u: Uuid, found: Option<nat>) {
    && y < |ls| && y < |ss| && ls[y] == LookupStep(sid)
    && found == if u in ss[y].v.monitors then Some(ss[y].v.monitors[u]) else None
  }

  function MonitorOf(h: Handle): Option<nat> {
    match h
    case Attached(m) => Some(m)
    case Direct(_) => None
  }

  ghost predicate Granted(ss: seq<Sys>, ls: seq<Label>, n: nat, sid: Sid, u: Uuid, wordId: string) {
    exists x: nat :: x < n && GrantedAt(ss, ls, x, sid, u, wordId)
  }

  ghost predicate Looked(ss: seq<Sys>, ls: seq<Label>, n: nat, sid: Sid, u: Uuid, found: Option<nat>) {
    exists y: nat :: y < n && LookedAt(ss, ls, y, sid, u, found)
  }

  /** How far an open has come, and what it knows about a monitor by then. */
  predicate Progressed(a: Phase, b: Phase) {
    a == b || (a.Looked? && b.Holding? && MonitorOf(b.handle) == a.monitor)
  }

  ghost predicate OpenFollows(s: Sys, l: Label, t: Sys, sid: Sid) {
    sid in t.opens ==>
      var o := t.opens[sid];
      || (l.ClaimStep? && l.sid == sid && o == Opening(o.uuid, l.wordId, Waiting)
          && ClaimOutcomeOf(s.v, l.wordId, l.lines).Claimed?
          && ClaimOutcomeOf(s.v, l.wordId, l.lines).uuid == o.uuid)
      || (sid in s.opens && o.uuid == s.opens[sid].uuid && o.wordId == s.opens[sid].wordId
          && (Progressed(s.opens[sid].phase, o.phase)
              || (l == LookupStep(sid) && o.phase == Phase.Looked(
                    if o.uuid in s.v.monitors then Some(s.v.monitors[o.uuid]) else None))))
  }

  ghost predicate SessionFollows(s: Sys, l: Label, t: Sys, sid: Sid) {
    sid in t.v.sessions ==>
      || (sid in s.v.sessions && t.v.sessions[sid] == s.v.sessions[sid])
      || (sid in s.opens && s.opens[sid].phase.Holding?
          && t.v.sessions[sid] == Session(s.opens[sid].uuid, s.opens[sid].wordId, s.opens[sid].phase.handle))
  }

  predicate SessionStep(l: Label) { l.ClaimStep? || l.LookupStep? || l.OpenStep? || l.RegisterStep? || l.CloseStep? }

  lemma OtherStepsLeaveSessions(s: Sys, l: Label)
    requires s.words.WellFormed() && Enabled(s, l) && !SessionStep(l)
    ensures Step(s, l).opens == s.opens && Step(s, l).v.sessions == s.v.sessions
  {
    hide Scan, UpdateRec, Rename, WithDevice, StartPath;
    if RegistryOnly(l) {
      RegistryFrame(s, l);
    } else if l.StartStep? || l.StopStep? {
      WithDeviceFrame(s.v, l.uuid);
    }
  }

  lemma StepFollows(s: Sys, l: Label, sid: Sid)
    requires s.words.WellFormed() && Enabled(s, l)
    ensures OpenFollows(s, l, Step(s, l), sid) && SessionFollows(s, l, Step(s, l), sid)
  {
    if SessionStep(l) {
      hide RegisterSucceeds, ClaimOutcomeOf, OpenFollows, SessionFollows;
      OpenStepFollows(s, l, sid);
      SessionStepFollows(s, l, sid);
    } else {
      OtherStepsLeaveSessions(s, l);
      hide Step, Enabled;
    }
  }

  lemma OpenStepFollows(s: Sys, l: Label, sid: Sid)
    requires s.words.WellFormed() && Enabled(s, l) && SessionStep(l)
    ensures OpenFollows(s, l, Step(s, l), sid)
  {
    hide RegisterSucceeds, ClaimOutcomeOf;
  }

  lemma SessionStepFollows(s: Sys, l: Label, sid: Sid)
    requires s.words.WellFormed() && Enabled(s, l) && SessionStep(l)
    ensures SessionFollows(s, l, Step(s, l), sid)
  {
    hide RegisterSucceeds, ClaimOutcomeOf;
    if l.RegisterStep? {
      RegisteredSessions(s, l.sid);
      hide Step, Enabled;
    } else if l.CloseStep? {
      ClosedSessions(s, l.sid);
      hide Step, Enabled;
    }
  }

  lemma RegisteredSessions(s: Sys, x: Sid)
    requires s.words.WellFormed() && Enabled(s, RegisterStep(x))
    ensures x in s.opens && s.opens[x].phase.Holding?
    ensures var o := s.opens[x];
            Step(s, RegisterStep(x)).v.sessions ==
            if RegisterSucceeds(s.v, x, o.uuid) then s.v.sessions[x := Session(o.uuid, o.wordId, o.phase.handle)]
            else s.v.sessions
  {
    hide RegisterSucceeds;
  }

  lemma ClosedSessions(s: Sys, x: Sid)
    requires s.words.WellFormed()
    ensures Enabled(s, CloseStep(x)) && Step(s, CloseStep(x)).v.sessions == s.v.sessions - {x}
  {
  }

  lemma FollowsAcross(ss: seq<Sys>, ls: seq<Label>, i: nat, sid: Sid)
    requires Run(ss, ls) && i < |ls| && |ss| == |ls| + 1
    ensures OpenFollows(ss[i], ls[i], ss[i + 1], sid) && SessionFollows(ss[i], ls[i], ss[i + 1], sid)
  {
    hide *;
    RunStep(ss, ls, i);
    InvWords(ss[i]);
    StepFollows(ss[i], ls[i], sid);
  }

  ghost predicate OpenTraced(ss: seq<Sys>, ls: seq<Label>, n: nat, sid: Sid, o: Opening) {
    && Granted(ss, ls, n, sid, o.uuid, o.wordId)
    && match o.phase
       case Waiting => true
       case Looked(m) => Looked(ss, ls, n, sid, o.uuid, m)
       case Holding(h) => Looked(ss, ls, n, sid, o.uuid, MonitorOf(h))
  }

  lemma TraceGrows(ss: seq<Sys>, ls: seq<Label>, n: nat, sid: Sid, u: Uuid, wordId: string, found: Option<nat>)
    ensures Granted(ss, ls, n, sid, u, wordId) ==> Granted(ss, ls, n + 1, sid, u, wordId)
    ensures Looked(ss, ls, n, sid, u, found) ==> Looked(ss, ls, n + 1, sid, u, found)
    ensures GrantedAt(ss, ls, n, sid, u, wordId) ==> Granted(ss, ls, n + 1, sid, u, wordId)
    ensures LookedAt(ss, ls, n, sid, u, found) ==> Looked(ss, ls, n + 1, sid, u, found)
  {
    hide GrantedAt, LookedAt;
  }

  lemma TracedNext(ss: seq<Sys>, ls: seq<Label>, n: nat, sid: Sid)
    requires n < |ls| && |ss| == |ls| + 1 && sid in ss[n + 1].opens && OpenFollows(ss[n], ls[n], ss[n + 1], sid)
    requires sid in ss[n].opens ==> OpenTraced(ss, ls, n, sid, ss[n].opens[sid])
    ensures OpenTraced(ss, ls, n + 1, sid, ss[n + 1].opens[sid])
  {
    hide Granted, Looked, ClaimOutcomeOf;
    var o := ss[n + 1].opens[sid];
    var found := match o.phase case Waiting => None case Looked(m) => m case Holding(h) => MonitorOf(h);
    TraceGrows(ss, ls, n, sid, o.uuid, o.wordId, found);
  }

  lemma {:induction false} OpensAreTraced(ss: seq<Sys>, ls: seq<Label>, i: nat, sid: Sid)
    requires Run(ss, ls) && i < |ss| && sid in ss[i].opens
    ensures OpenTraced(ss, ls, i, sid, ss[i].opens[sid])
  {
    hide *;
    Beginning(ss, ls);
    if i > 0 {
      FollowsAcross(ss, ls, i - 1, sid);
      if sid in ss[i - 1].opens { OpensAreTraced(ss, ls, i - 1, sid); }
      TracedNext(ss, ls, i - 1, sid);
    }
  }

  lemma Beginning(ss: seq<Sys>, ls: seq<Label>)
    requires Run(ss, ls)
    ensures |ss| == |ls| + 1 && ss[0].opens == map[] && ss[0].v.sessions == map[]
  {
    hide Linked;
  }

  /** A session is for the device, and under the handle, that its claim was granted for; and it reads
      from a monitor exactly when one ran on the device as its open looked, and then from that one:
      otherwise the open opened the port itself. */
  lemma {:induction false} SessionIsAsGranted(ss: seq<Sys>, ls: seq<Label>, i: nat, sid: Sid)
    requires Run(ss, ls) && i < |ss| && sid in ss[i].v.sessions
    ensures var x := ss[i].v.sessions[sid];
            && Granted(ss, ls, i, sid, x.uuid, x.wordId)
            && Looked(ss, ls, i, sid, x.uuid, MonitorOf(x.handle))
  {
    hide *;
    Beginning(ss, ls);
    if i > 0 {
      FollowsAcross(ss, ls, i - 1, sid);
      var x := ss[i].v.sessions[sid];
      TraceGrows(ss, ls, i - 1, sid, x.uuid, x.wordId, MonitorOf(x.handle));
      if sid in ss[i - 1].v.sessions && x == ss[i - 1].v.sessions[sid] {
        SessionIsAsGranted(ss, ls, i - 1, sid);
      } else {
        NewSession(ss, ls, i - 1, sid);
      }
    }
  }

  lemma NewSession(ss: seq<Sys>, ls: seq<Label>, n: nat, sid: Sid)
    requires Run(ss, ls) && n < |ls| && |ss| == |ls| + 1 && sid in ss[n + 1].v.sessions
    requires SessionFollows(ss[n], ls[n], ss[n + 1], sid)
    requires sid in ss[n].v.sessions ==> ss[n + 1].v.sessions[sid] != ss[n].v.sessions[sid]
    ensures var x := ss[n + 1].v.sessions[sid];
            Granted(ss, ls, n, sid, x.uuid, x.wordId) && Looked(ss, ls, n, sid, x.uuid, MonitorOf(x.handle))
  {
    hide Run, Granted, Looked;
    OpensAreTraced(ss, ls, n, sid);
  }
}
