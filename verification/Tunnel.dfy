// The tunnel's run loop and its latching kill switch (internal/agent/tunnel.go).
//
// Run, Resume and Disconnect share an atomic flag, a one-slot channel and the
// kill function of the current session. Each atomic access is one step, so
// every interleaving of any number of callers with the run loop is covered.
module Tunnel {
  import opened Prelude

  const BACKOFF_MIN: nat := 1   // seconds
  const BACKOFF_MAX: nat := 60

  /** Where the run loop stands. Committed: it has seen the latch open and will start a session. */
  datatype Pc = Top | Parked | Committed | Dialling | Live | Ending | BackingOff | Exited

  /** kill is published by the live session; attempt numbers sessions; severed: the live session
      has been closed under the run loop. grabbed holds what each Disconnect call read. */
  datatype Sys = Sys(
    stopped: bool,
    token: bool,
    kill: Option<nat>,
    pc: Pc,
    backoff: nat,
    attempt: nat,
    severed: bool,
    resuming: set<nat>,
    grabbed: map<nat, Option<nat>>)

  datatype Label =
    | ResumeStore(t: nat)
    | ResumeSend(t: nat)
    | DisconnectStore(t: nat)
    | DisconnectRead(t: nat)
    | DisconnectKill(t: nat)
    | CheckLatch
    | BeginSession
    | Connected
    | SessionReturns
    | Settle(longLived: bool)
    | TakeToken
    | BackoffElapsed
    | ContextDone

  ghost predicate Enabled(s: Sys, l: Label) {
    match l
    case ResumeStore(t) => t !in s.resuming
    case ResumeSend(t) => t in s.resuming
    case DisconnectStore(t) => true
    case DisconnectRead(t) => t !in s.grabbed
    case DisconnectKill(t) => t in s.grabbed
    case CheckLatch => s.pc == Top
    case BeginSession => s.pc == Committed
    case Connected => s.pc == Dialling
    case SessionReturns => s.pc == Dialling || s.pc == Live
    case Settle(_) => s.pc == Ending
    case TakeToken => (s.pc == Parked || s.pc == BackingOff) && s.token
    case BackoffElapsed => s.pc == BackingOff
    case ContextDone => s.pc == Parked || s.pc == BackingOff || s.pc == Ending
  }

  function Step(s: Sys, l: Label): Sys {
    match l
    case ResumeStore(t) => s.(stopped := false, resuming := s.resuming + {t})
    case ResumeSend(t) => s.(token := true, resuming := s.resuming - {t})
    case DisconnectStore(_) => s.(stopped := true)
    case DisconnectRead(t) => s.(grabbed := s.grabbed[t := s.kill])
    case DisconnectKill(t) =>
      s.(grabbed := s.grabbed - {t},
         severed := s.severed || (s.pc == Live && t in s.grabbed && s.grabbed[t] == Some(s.attempt)))
    case CheckLatch => s.(pc := if s.stopped then Parked else Committed)
    case BeginSession => s.(pc := Dialling, attempt := s.attempt + 1, severed := false)
    case Connected => s.(pc := Live, kill := Some(s.attempt))
    case SessionReturns => s.(pc := Ending, kill := None)
    case Settle(longLived) => s.(pc := BackingOff, backoff := if longLived then BACKOFF_MIN else s.backoff)
    case TakeToken => s.(pc := Top, token := false, backoff := BACKOFF_MIN)
    case BackoffElapsed => s.(pc := Top, backoff := Min(s.backoff * 2, BACKOFF_MAX))
    case ContextDone => s.(pc := Exited)
  }

  predicate Init(s: Sys) {
    s == Sys(false, false, None, Top, BACKOFF_MIN, 0, false, {}, map[])
  }

  ghost predicate Linked(s: Sys, l: Label, t: Sys) { Enabled(s, l) && t == Step(s, l) }

  ghost predicate Run(ss: seq<Sys>, ls: seq<Label>) {
    && |ss| == |ls| + 1 && Init(ss[0])
    && forall i | 0 <= i < |ls| :: Linked(ss[i], ls[i], ss[i + 1])
  }

  // ---- No lost resume ----

  predicate ResumeNotLost(s: Sys) {
    s.pc == Parked && !s.stopped ==> s.token || s.resuming != {}
  }

  predicate KillMatches(s: Sys) {
    && s.kill == (if s.pc == Live then Some(s.attempt) else None)
    && (s.pc == Dialling ==> !s.severed)
    && (forall t | t in s.grabbed && s.grabbed[t].Some? :: s.grabbed[t].value <= s.attempt)
  }

  lemma {:induction false} RunInvariant(ss: seq<Sys>, ls: seq<Label>, i: nat)
    requires Run(ss, ls) && i < |ss|
    ensures ResumeNotLost(ss[i]) && KillMatches(ss[i])
  {
    if i > 0 {
      RunInvariant(ss, ls, i - 1);
      assert Linked(ss[i - 1], ls[i - 1], ss[i]);
    }
  }

  /** Whenever the loop is parked at the latch although the latch is open, a resume token is
      waiting for it or some Resume call is about to leave one. */
  lemma NoLostResume(ss: seq<Sys>, ls: seq<Label>, i: nat)
    requires Run(ss, ls) && i < |ss| && ss[i].pc == Parked && !ss[i].stopped
    ensures Enabled(ss[i], TakeToken) || exists t :: Enabled(ss[i], ResumeSend(t))
  {
    RunInvariant(ss, ls, i);
    if !ss[i].token {
      var t :| t in ss[i].resuming;
      assert Enabled(ss[i], ResumeSend(t));
    }
  }

  // ---- The latch ----

  /** Some Disconnect has stored before step b, and no Resume has stored after it. */
  ghost predicate Latched(ls: seq<Label>, b: nat) { exists i: nat :: LatchedBy(ls, i, b) }

  ghost predicate LatchedBy(ls: seq<Label>, i: nat, b: nat) {
    i < b && i < |ls| && ls[i].DisconnectStore? && NoResume(ls, i + 1, b)
  }

  lemma LatchedNext(ls: seq<Label>, b: nat)
    requires b < |ls|
    ensures Latched(ls, b + 1) <==> ls[b].DisconnectStore? || (!ls[b].ResumeStore? && Latched(ls, b))
  {
    if ls[b].DisconnectStore? { assert LatchedBy(ls, b, b + 1); }
    if i: nat :| LatchedBy(ls, i, b) {
      if !ls[b].ResumeStore? { assert LatchedBy(ls, i, b + 1); }
    }
    if Latched(ls, b + 1) {
      var i: nat :| LatchedBy(ls, i, b + 1);
      if i < b { assert LatchedBy(ls, i, b); }
    }
  }

  /** The latch is closed exactly when the last store to it was a Disconnect's. */
  lemma {:induction false} LatchIsLastStore(ss: seq<Sys>, ls: seq<Label>, b: nat)
    requires Run(ss, ls) && b <= |ls|
    ensures ss[b].stopped <==> Latched(ls, b)
  {
    if b > 0 {
      LatchIsLastStore(ss, ls, b - 1);
      assert Linked(ss[b - 1], ls[b - 1], ss[b]);
      LatchedNext(ls, b - 1);
      hide Latched;
    }
  }

  /** Once the latch is open and stays open, a loop that is parked has been parked all along, with
      the token it was left. */
  lemma {:induction false} ParkedKeepsToken(ss: seq<Sys>, ls: seq<Label>, a: nat, b: nat)
    requires Run(ss, ls) && a <= b <= |ls| && !ss[a].stopped && (ss[a].pc == Parked ==> ss[a].token)
    requires forall x | a <= x < b :: !ls[x].DisconnectStore?
    ensures !ss[b].stopped && (ss[b].pc == Parked ==> ss[b].token)
    decreases b
  {
    if a < b {
      ParkedKeepsToken(ss, ls, a, b - 1);
      assert Linked(ss[b - 1], ls[b - 1], ss[b]);
    }
  }

  lemma {:induction false} OpenStaysOpen(ss: seq<Sys>, ls: seq<Label>, i: nat, b: nat)
    requires Run(ss, ls) && i < b <= |ls| && ls[i].ResumeStore?
    requires forall x | i < x < b :: !ls[x].DisconnectStore?
    ensures !ss[b].stopped
    decreases b
  {
    assert Linked(ss[b - 1], ls[b - 1], ss[b]);
    if i < b - 1 { OpenStaysOpen(ss, ls, i, b - 1); }
  }

  /** Resume works: after a Resume has stored (step i) and sent (step m), with no Disconnect since, a
      loop that is parked begins a session by its own next three steps. */
  lemma ResumeResumes(ss: seq<Sys>, ls: seq<Label>, t: nat, i: nat, m: nat) returns (tt: seq<Sys>, ms: seq<Label>)
    requires Run(ss, ls) && i < m < |ls| && ls[i] == ResumeStore(t) && ls[m] == ResumeSend(t)
    requires forall x | i < x < |ls| :: !ls[x].DisconnectStore?
    requires ss[|ls|].pc == Parked
    ensures Extends(ss, ls, tt, ms) && ms == ls + [TakeToken, CheckLatch, BeginSession]
    ensures tt[|ms|].pc == Dialling && tt[|ms|].attempt == ss[|ls|].attempt + 1
  {
    OpenStaysOpen(ss, ls, i, m);
    assert Linked(ss[m], ls[m], ss[m + 1]);
    ParkedKeepsToken(ss, ls, m + 1, |ls|);
    tt, ms := TokenStarts(ss, ls);
  }

  predicate Waiting(pc: Pc) { pc == Parked || pc == BackingOff }

  /** A token ends any wait at once, parked or backing off: with the latch open the next session begins. */
  lemma TokenStarts(ss: seq<Sys>, ls: seq<Label>) returns (tt: seq<Sys>, ms: seq<Label>)
    requires Run(ss, ls) && Waiting(ss[|ls|].pc) && ss[|ls|].token && !ss[|ls|].stopped
    ensures Extends(ss, ls, tt, ms) && ms == ls + [TakeToken, CheckLatch, BeginSession]
    ensures tt[|ms|].pc == Dialling && tt[|ms|].attempt == ss[|ls|].attempt + 1
  {
    hide Run;
    tt, ms := Extend(ss, ls, TakeToken);
    tt, ms := Extend(tt, ms, CheckLatch);
    tt, ms := Extend(tt, ms, BeginSession);
  }

  ghost predicate CanBegin(ss: seq<Sys>, ls: seq<Label>) {
    exists tt, ms :: Extends(ss, ls, tt, ms) && NoResume(ms, |ls|, |ms|) && Begins(ms, |ls|, |ms|) > 0
  }

  /** A parked loop can get to another session without a further Resume exactly when the latch is
      open. */
  lemma ParkedBeginsIff(ss: seq<Sys>, ls: seq<Label>)
    requires Run(ss, ls) && ss[|ls|].pc == Parked
    ensures CanBegin(ss, ls) <==> !ss[|ls|].stopped
  {
    if !ss[|ls|].stopped {
      RunInvariant(ss, ls, |ls|);
      var tt, ms := ss, ls;
      if !ss[|ls|].token {
        var t :| t in ss[|ls|].resuming;
        tt, ms := Extend(ss, ls, ResumeSend(t));
      }
      hide Run, Step, Enabled;
      var uu, ns := TokenStarts(tt, ms);
      assert Begins(ns, |ls|, |ns|) > 0 by { assert ns[|ns| - 1].BeginSession?; }
      assert Extends(ss, ls, uu, ns) && NoResume(ns, |ls|, |ns|);
    } else if CanBegin(ss, ls) {
      var tt, ms :| Extends(ss, ls, tt, ms) && NoResume(ms, |ls|, |ms|) && Begins(ms, |ls|, |ms|) > 0;
      assert tt[|ls|] == ss[|ls|];
      LatchedBegins(tt, ms, |ls|, |ms|);
      assert false;
    }
  }

  function Sends(ls: seq<Label>): nat {
    if ls == [] then 0 else Sends(ls[..|ls| - 1]) + if ls[|ls| - 1].ResumeSend? then 1 else 0
  }

  function Receives(ls: seq<Label>): nat {
    if ls == [] then 0 else Receives(ls[..|ls| - 1]) + if ls[|ls| - 1].TakeToken? then 1 else 0
  }

  /** Every token received was sent, and none is received twice. */
  lemma {:induction false} TokensAreSingleUse(ss: seq<Sys>, ls: seq<Label>, i: nat)
    requires Run(ss, ls) && i <= |ls|
    ensures Receives(ls[..i]) + (if ss[i].token then 1 else 0) <= Sends(ls[..i])
  {
    if i > 0 {
      TokensAreSingleUse(ss, ls, i - 1);
      assert Linked(ss[i - 1], ls[i - 1], ss[i]);
      assert ls[..i][..i - 1] == ls[..i - 1];
    }
  }

  /** Once the run loop has returned it begins nothing more. */
  lemma {:induction false} ExitIsFinal(ss: seq<Sys>, ls: seq<Label>, a: nat, b: nat)
    requires Run(ss, ls) && a <= b <= |ls| && ss[a].pc == Exited
    ensures ss[b].pc == Exited && ss[b].attempt == ss[a].attempt
    decreases b
  {
    if a < b {
      ExitIsFinal(ss, ls, a, b - 1);
      assert Linked(ss[b - 1], ls[b - 1], ss[b]);
    }
  }

  ghost predicate NoResume(ls: seq<Label>, a: nat, b: nat) {
    forall x | a <= x < b && x < |ls| :: !ls[x].ResumeStore?
  }

  function Begins(ls: seq<Label>, a: nat, b: nat): nat
    requires a <= b <= |ls|
  {
    if a == b then 0 else Begins(ls, a, b - 1) + if ls[b - 1].BeginSession? then 1 else 0
  }

  /** While latched, only the attempt already committed can begin, and only once. */
  lemma {:induction false} LatchedBegins(ss: seq<Sys>, ls: seq<Label>, a: nat, b: nat)
    requires Run(ss, ls) && a <= b <= |ls| && ss[a].stopped && NoResume(ls, a, b)
    ensures ss[b].stopped
    ensures Begins(ls, a, b) + (if ss[b].pc == Committed then 1 else 0) <= if ss[a].pc == Committed then 1 else 0
    ensures ss[b].attempt == ss[a].attempt + Begins(ls, a, b)
    decreases b - a
  {
    if a < b {
      LatchedBegins(ss, ls, a, b - 1);
      assert Linked(ss[b - 1], ls[b - 1], ss[b]);
    }
  }

  /** Kill switch: from a Disconnect's store (step i) until the next Resume's store, at most one
      session begins, and none unless the loop had passed its check before. */
  lemma KillSwitchLatches(ss: seq<Sys>, ls: seq<Label>, i: nat, j: nat)
    requires Run(ss, ls) && i < j <= |ls| && ls[i].DisconnectStore? && NoResume(ls, i, j)
    ensures Begins(ls, i, j) <= 1
    ensures ss[i].pc != Committed ==> Begins(ls, i, j) == 0
  {
    assert Linked(ss[i], ls[i], ss[i + 1]);
    assert NoResume(ls, i + 1, j);
    LatchedBegins(ss, ls, i + 1, j);
    BeginsFrom(ls, i, j);
  }

  lemma {:induction false} BeginsFrom(ls: seq<Label>, a: nat, b: nat)
    requires a < b <= |ls|
    ensures Begins(ls, a, b) == (if ls[a].BeginSession? then 1 else 0) + Begins(ls, a + 1, b)
    decreases b
  {
    if a + 1 < b { BeginsFrom(ls, a, b - 1); }
  }

  /** In particular nothing begins after an attempt that was in flight, even with stale tokens. */
  lemma NoneAfterTheLastAttempt(ss: seq<Sys>, ls: seq<Label>, i: nat, e: nat, j: nat)
    requires Run(ss, ls) && i < e < j <= |ls| && ls[i].DisconnectStore? && NoResume(ls, i, j)
    requires ls[e].SessionReturns?
    ensures Begins(ls, e + 1, j) == 0
  {
    assert Linked(ss[i], ls[i], ss[i + 1]);
    assert NoResume(ls, i + 1, e) && NoResume(ls, e, j) && NoResume(ls, e + 1, j);
    LatchedBegins(ss, ls, i + 1, e);
    assert Linked(ss[e], ls[e], ss[e + 1]);
    LatchedBegins(ss, ls, e + 1, j);
  }

  // ---- What Disconnect severs ----

  predicate Connecting(pc: Pc) { pc == Committed || pc == Dialling }

  /** From a state where no session is on its way, none becomes live while latched; a severed
      session stays severed. */
  lemma {:induction false} LatchedSessions(ss: seq<Sys>, ls: seq<Label>, a: nat, b: nat)
    requires Run(ss, ls) && a <= b <= |ls| && ss[a].stopped && NoResume(ls, a, b) && !Connecting(ss[a].pc)
    ensures ss[b].stopped && !Connecting(ss[b].pc) && ss[b].attempt == ss[a].attempt
    ensures ss[b].pc == Live ==> ss[a].pc == Live && (ss[a].severed ==> ss[b].severed)
    decreases b - a
  {
    if a < b {
      LatchedSessions(ss, ls, a, b - 1);
      assert Linked(ss[b - 1], ls[b - 1], ss[b]);
    }
  }

  ghost predicate CallOf(ls: seq<Label>, t: nat, k: nat, m: nat) {
    k < m < |ls| && ls[k] == DisconnectRead(t) && ls[m] == DisconnectKill(t)
    && forall x | k < x < m :: ls[x] != DisconnectKill(t)
  }

  lemma {:induction false} GrabbedStays(ss: seq<Sys>, ls: seq<Label>, t: nat, k: nat, x: nat)
    requires Run(ss, ls) && k < x < |ss| && x <= |ls| && ls[k] == DisconnectRead(t)
    requires forall y | k < y < x :: ls[y] != DisconnectKill(t)
    ensures t in ss[x].grabbed && ss[x].grabbed[t] == ss[k].kill
    decreases x
  {
    assert Linked(ss[x - 1], ls[x - 1], ss[x]);
    if x > k + 1 { GrabbedStays(ss, ls, t, k, x - 1); }
  }

  /** The kill of a Disconnect call that read at k and kills at m hits the live session exactly when
      it is the one that was live at the read. */
  lemma KillHitsIff(ss: seq<Sys>, ls: seq<Label>, t: nat, k: nat, m: nat)
    requires Run(ss, ls) && CallOf(ls, t, k, m)
    ensures ss[m].pc == Live ==>
              (ss[m + 1].severed <==> ss[m].severed || (ss[k].pc == Live && ss[k].attempt == ss[m].attempt))
  {
    RunInvariant(ss, ls, k);
    GrabbedStays(ss, ls, t, k, m);
    assert Linked(ss[m], ls[m], ss[m + 1]);
  }

  /** A continuation of a run. */
  ghost predicate Extends(ss: seq<Sys>, ls: seq<Label>, tt: seq<Sys>, ms: seq<Label>) {
    Run(tt, ms) && ss <= tt && ls <= ms
  }

  lemma Extend(ss: seq<Sys>, ls: seq<Label>, l: Label) returns (tt: seq<Sys>, ms: seq<Label>)
    requires Run(ss, ls) && Enabled(ss[|ls|], l)
    ensures Extends(ss, ls, tt, ms) && ms == ls + [l] && tt[|ms|] == Step(ss[|ls|], l)
  {
    hide Enabled, Step;
    tt, ms := ss + [Step(ss[|ls|], l)], ls + [l];
    forall i | 0 <= i < |ms| ensures Linked(tt[i], ms[i], tt[i + 1]) {
      if i < |ls| { assert Linked(ss[i], ls[i], ss[i + 1]); }
    }
  }

  /** A session that is up and has not been severed, at the end of some continuation without a
      Resume. */
  ghost predicate CanBeUp(ss: seq<Sys>, ls: seq<Label>) {
    exists tt, ms :: Extends(ss, ls, tt, ms) && NoResume(ms, |ls|, |ms|) && Up(tt[|ms|])
  }

  predicate Up(s: Sys) { s.pc == Live && !s.severed }

  lemma ConnectingComesUp(ss: seq<Sys>, ls: seq<Label>) returns (tt: seq<Sys>, ms: seq<Label>)
    requires Run(ss, ls) && Connecting(ss[|ls|].pc)
    ensures Extends(ss, ls, tt, ms) && NoResume(ms, |ls|, |ms|) && Up(tt[|ms|]) && tt[|ms|].stopped == ss[|ls|].stopped
  {
    hide Run;
    tt, ms := ss, ls;
    RunLength(ss, ls);
    if ss[|ls|].pc == Committed { tt, ms := Extend(ss, ls, BeginSession); }
    RunInvariant(tt, ms, |ms|) by { RunLength(tt, ms); }
    tt, ms := Extend(tt, ms, Connected);
  }

  lemma RunLength(ss: seq<Sys>, ls: seq<Label>)
    requires Run(ss, ls)
    ensures |ss| == |ls| + 1
  {
  }

  /** A completed Disconnect (store i, read k, kill m, nothing since, no Resume in between) keeps
      every session down until the next Resume exactly when no session was being dialled at its end
      and the one that was live, if any, has been severed. */
  lemma DisconnectSeversIff(ss: seq<Sys>, ls: seq<Label>, t: nat, i: nat, k: nat, m: nat)
    requires Run(ss, ls) && i < k && CallOf(ls, t, k, m) && |ls| == m + 1
    requires ls[i] == DisconnectStore(t) && NoResume(ls, i, m)
    ensures !CanBeUp(ss, ls) <==>
            !Connecting(ss[m + 1].pc) && (ss[m + 1].pc == Live ==> ss[m + 1].severed)
  {
    var end := ss[m + 1];
    if Connecting(end.pc) {
      var tt, ms := ConnectingComesUp(ss, ls);
    } else if Up(end) {
      assert Extends(ss, ls, ss, ls);
    } else if CanBeUp(ss, ls) {
      var tt, ms :| Extends(ss, ls, tt, ms) && NoResume(ms, |ls|, |ms|) && Up(tt[|ms|]);
      LatchStays(ss, ls, i, m + 1);
      assert tt[m + 1] == end;
      LatchedSessions(tt, ms, m + 1, |ms|);
      assert false;
    }
  }

  lemma LatchStays(ss: seq<Sys>, ls: seq<Label>, i: nat, j: nat)
    requires Run(ss, ls) && i < j <= |ls| && ls[i].DisconnectStore? && NoResume(ls, i, j)
    ensures ss[j].stopped
  {
    assert Linked(ss[i], ls[i], ss[i + 1]);
    assert NoResume(ls, i + 1, j);
    LatchedBegins(ss, ls, i + 1, j);
  }

  /** A run in which that happens: the latch closes while the first session is being dialled. */
  lemma DisconnectMissesADiallingSession() returns (ss: seq<Sys>, ls: seq<Label>)
    ensures Run(ss, ls)
    ensures ls == [CheckLatch, BeginSession, DisconnectStore(0), DisconnectRead(0), DisconnectKill(0), Connected]
    ensures ss[6].stopped && ss[6].pc == Live && !ss[6].severed
  {
    ls := [CheckLatch, BeginSession, DisconnectStore(0), DisconnectRead(0), DisconnectKill(0), Connected];
    var s0 := Sys(false, false, None, Top, BACKOFF_MIN, 0, false, {}, map[]);
    var s1 := Step(s0, ls[0]);
    var s2 := Step(s1, ls[1]);
    var s3 := Step(s2, ls[2]);
    var s4 := Step(s3, ls[3]);
    var s5 := Step(s4, ls[4]);
    var s6 := Step(s5, ls[5]);
    ss := [s0, s1, s2, s3, s4, s5, s6];
    forall i | 0 <= i < |ls| ensures Linked(ss[i], ls[i], ss[i + 1]) {
      assert i == 0 || i == 1 || i == 2 || i == 3 || i == 4 || i == 5;
    }
  }

  // ---- Backoff ----

  function Pow2(n: nat): nat { if n == 0 then 1 else 2 * Pow2(n - 1) }

  /** Backoff waits that have run out since the last fresh start: the start of the run, a consumed
      resume token, or a session that lived for more than a minute. */
  function Waits(ls: seq<Label>): nat {
    if ls == [] then 0
    else match ls[|ls| - 1]
      case BackoffElapsed => Waits(ls[..|ls| - 1]) + 1
      case TakeToken => 0
      case Settle(longLived) => if longLived then 0 else Waits(ls[..|ls| - 1])
      case _ => Waits(ls[..|ls| - 1])
  }

  /** The wait after n that ran out: 2^n seconds, capped. */
  function WaitAfter(n: nat): nat { Min(Pow2(n), BACKOFF_MAX) }

  lemma WaitDoubles(n: nat)
    ensures WaitAfter(0) == BACKOFF_MIN && WaitAfter(n + 1) == Min(WaitAfter(n) * 2, BACKOFF_MAX)
  {
  }

  /** After n consecutive short attempts the next wait is min(2^n, 60) seconds. */
  lemma {:induction false} BackoffDoubles(ss: seq<Sys>, ls: seq<Label>, i: nat)
    requires Run(ss, ls) && i <= |ls|
    ensures ss[i].backoff == WaitAfter(Waits(ls[..i]))
  {
    if i > 0 {
      BackoffDoubles(ss, ls, i - 1);
      assert Linked(ss[i - 1], ls[i - 1], ss[i]);
      assert ls[..i][..i - 1] == ls[..i - 1];
      WaitDoubles(Waits(ls[..i - 1]));
    }
  }

  /** How one attempt went: whether its session outlived a minute, and whether a resume token cut
      the wait after it short. */
  datatype Attempt = Attempt(longLived: bool, resumed: bool)

  /** The backoff steps those attempts make the run loop take. */
  function StepsOf(attempts: seq<Attempt>): seq<Label> {
    if attempts == [] then []
    else
      var last := attempts[|attempts| - 1];
      StepsOf(attempts[..|attempts| - 1]) +
      [Settle(last.longLived)] + [if last.resumed then TakeToken else BackoffElapsed]
  }

  lemma WaitsAppend(ls: seq<Label>, l: Label)
    ensures Waits(ls + [l]) == match l
                               case BackoffElapsed => Waits(ls) + 1
                               case TakeToken => 0
                               case Settle(longLived) => if longLived then 0 else Waits(ls)
                               case _ => Waits(ls)
  {
    assert (ls + [l])[..|ls|] == ls;
  }

  /** The wait after an attempt that follows the given ones. */
  function WaitOf(before: seq<Attempt>, a: Attempt): nat {
    WaitAfter(Waits(StepsOf(before) + [Settle(a.longLived)]))
  }

  function BackoffAfter(attempts: seq<Attempt>): nat { WaitAfter(Waits(StepsOf(attempts))) }

  lemma BackoffNext(before: seq<Attempt>, a: Attempt)
    ensures BackoffAfter([]) == BACKOFF_MIN
    ensures WaitOf(before, a) == if a.longLived then BACKOFF_MIN else BackoffAfter(before)
    ensures BackoffAfter(before + [a]) ==
            if a.resumed then BACKOFF_MIN else Min(WaitOf(before, a) * 2, BACKOFF_MAX)
  {
    assert (before + [a])[..|before|] == before;
    var settled := StepsOf(before) + [Settle(a.longLived)];
    WaitsAppend(StepsOf(before), Settle(a.longLived));
    WaitsAppend(settled, if a.resumed then TakeToken else BackoffElapsed);
    WaitDoubles(Waits(settled));
    hide Pow2;
  }

  /** Run's loop while the latch stays open: each wait is the one BackoffDoubles gives for the steps
      before it. */
  method RetryLoop(attempts: seq<Attempt>) returns (waits: seq<nat>)
    ensures |waits| == |attempts|
    ensures forall i | 0 <= i < |waits| :: waits[i] == WaitOf(attempts[..i], attempts[i])
  {
    hide WaitOf, BackoffAfter;
    waits := [];
    var backoff := BACKOFF_MIN;
    BackoffNext([], Attempt(false, false));
    for n := 0 to |attempts|
      invariant |waits| == n && backoff == BackoffAfter(attempts[..n])
      invariant forall i | 0 <= i < n :: waits[i] == WaitOf(attempts[..i], attempts[i])
    {
      BackoffNext(attempts[..n], attempts[n]);
      assert attempts[..n + 1] == attempts[..n] + [attempts[n]];
      if attempts[n].longLived { backoff := BACKOFF_MIN; }
      waits := waits + [backoff];
      if attempts[n].resumed {
        backoff := BACKOFF_MIN;
        continue;
      }
      backoff := Min(backoff * 2, BACKOFF_MAX);
    }
  }

  // ---- The tunnel object ----

  class Tunnel {
    var stopped: bool
    var resume: Option<bool>  // the one-slot channel once created; true when it holds a token
    var kill: Option<nat>
    var backoff: nat

    constructor ()
      ensures !stopped && resume == None && kill == None && backoff == BACKOFF_MIN
    {
      stopped, resume, kill, backoff := false, None, None, BACKOFF_MIN;
    }

    predicate HasToken()
      reads this
    {
      resume.Some? && resume.value
    }

    ghost predicate Matches(s: Sys)
      reads this
    {
      stopped == s.stopped && kill == s.kill && backoff == s.backoff && (HasToken() <==> s.token)
    }

    /** Creates the channel at most once; a token left in it survives. */
    method ResumeCh()
      modifies this`resume
      ensures resume.Some? && (HasToken() <==> old(HasToken()))
    {
      if resume.None? { resume := Some(false); }
    }

    method StoreResume(ghost s: Sys, ghost t: nat)
      requires Matches(s)
      modifies this`stopped
      ensures Matches(Step(s, ResumeStore(t)))
    {
      stopped := false;
    }

    /** The non-blocking send: a full slot keeps its token. */
    method SendResume(ghost s: Sys, ghost t: nat)
      requires Matches(s)
      modifies this`resume
      ensures Matches(Step(s, ResumeSend(t)))
    {
      ResumeCh();
      if !resume.value { resume := Some(true); }
    }

    method StoreDisconnect(ghost s: Sys, ghost t: nat)
      requires Matches(s)
      modifies this`stopped
      ensures Matches(Step(s, DisconnectStore(t)))
    {
      stopped := true;
    }

    method ReadKill(ghost s: Sys, ghost t: nat) returns (k: Option<nat>)
      requires Matches(s)
      ensures Matches(Step(s, DisconnectRead(t))) && Step(s, DisconnectRead(t)).grabbed[t] == k
    {
      k := kill;
    }

    method Publish(ghost s: Sys, attempt: nat)
      requires Matches(s) && attempt == s.attempt
      modifies this`kill
      ensures Matches(Step(s, Connected))
    {
      kill := Some(attempt);
    }

    method Withdraw(ghost s: Sys)
      requires Matches(s)
      modifies this`kill
      ensures Matches(Step(s, SessionReturns))
    {
      kill := None;
    }

    method LoadLatch(ghost s: Sys) returns (parks: bool)
      requires Matches(s)
      ensures Matches(Step(s, CheckLatch)) && (parks <==> Step(s, CheckLatch).pc == Parked)
    {
      parks := stopped;
    }

    method AfterSession(ghost s: Sys, longLived: bool)
      requires Matches(s)
      modifies this`backoff
      ensures Matches(Step(s, Settle(longLived)))
    {
      if longLived { backoff := BACKOFF_MIN; }
    }

    method ReceiveToken(ghost s: Sys)
      requires Matches(s) && s.token
      modifies this`resume, this`backoff
      ensures Matches(Step(s, TakeToken))
    {
      resume := Some(false);
      backoff := BACKOFF_MIN;
    }

    method WaitElapsed(ghost s: Sys)
      requires Matches(s)
      modifies this`backoff
      ensures Matches(Step(s, BackoffElapsed))
    {
      backoff := Min(backoff * 2, BACKOFF_MAX);
    }
  }
}
