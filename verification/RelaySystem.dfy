// The relay session under every interleaving of its pump, readers, timers and
// Close (internal/relayapi/broker.go), and the reset news it reports once.
module RelaySystem {
  import opened Prelude
  import opened RelaySession

  datatype ReaderStatus = Ready | Waiting | Returned

  datatype Reader = Reader(request: Request, deadline: int, timerFired: bool, status: ReaderStatus)

  /** received is everything the pump has read; log is every read's result, in lock order. */
  datatype Sys = Sys(
    buf: seq<byte>, closed: bool, now: int,
    pump: PumpState, readers: map<nat, Reader>,
    received: seq<byte>, log: seq<Result>)

  datatype Label =
    | PumpCheckStep
    | PumpAppendStep(chunk: seq<byte>, failed: bool)
    | StartReadStep(id: nat, options: Options)
    | ReadPassStep(id: nat)
    | TimerStep(id: nat)
    | TickStep(ms: nat)
    | CloseStep

  ghost predicate Enabled(s: Sys, l: Label) {
    match l
    case PumpCheckStep => s.pump == Checking
    case PumpAppendStep(chunk, _) => s.pump == Reading && |chunk| <= CHUNK
    case StartReadStep(id, _) => id !in s.readers
    case ReadPassStep(id) => id in s.readers && s.readers[id].status == Ready
    case TimerStep(id) => id in s.readers && !s.readers[id].timerFired && s.now >= s.readers[id].deadline
    case TickStep(_) => true
    case CloseStep => true
  }

  function WakeReader(r: Reader): Reader { if r.status == Waiting then r.(status := Ready) else r }

  /** cond.Broadcast: every sleeper becomes runnable and will recheck under the lock. */
  function Wake(s: Sys): Sys {
    s.(pump := if s.pump == Asleep then Checking else s.pump,
       readers := map id | id in s.readers :: WakeReader(s.readers[id]))
  }

  function AfterPass(s: Sys, id: nat): Sys
    requires id in s.readers && s.readers[id].request.Valid()
  {
    var r := s.readers[id];
    var (p, woke) := PassOutcome(s.buf, s.closed, s.now >= r.deadline, r.request);
    var t :=
      match p
      case Sleep => s.(readers := s.readers[id := r.(status := Waiting)])
      case Done(x) =>
        s.(readers := s.readers[id := r.(status := Returned)], buf := s.buf[Min(|x.data|, |s.buf|)..],
           log := s.log + [x]);
    if woke then Wake(t) else t
  }

  function Step(s: Sys, l: Label): Sys
    requires Requests(s) && Enabled(s, l)
  {
    match l
    case PumpCheckStep => s.(pump := PumpAfterCheck(|s.buf|, s.closed))
    case PumpAppendStep(chunk, failed) =>
      Wake(s.(buf := s.buf + chunk, received := s.received + chunk, closed := s.closed || failed,
              pump := if failed then Stopped else Checking))
    case StartReadStep(id, o) =>
      s.(readers := s.readers[id := Reader(Clamp(o), s.now + ClampTimeout(o), false, Ready)])
    case ReadPassStep(id) => AfterPass(s, id)
    case TimerStep(id) => Wake(s.(readers := s.readers[id := s.readers[id].(timerFired := true)]))
    case TickStep(ms) => s.(now := s.now + ms)
    case CloseStep => Wake(s.(closed := true))
  }

  predicate Init(s: Sys) {
    && s.buf == [] && !s.closed && s.pump == Checking && s.readers == map[]
    && s.received == [] && s.log == []
  }

  ghost predicate Linked(s: Sys, l: Label, t: Sys) { Requests(s) && Enabled(s, l) && t == Step(s, l) }

  ghost predicate Run(ss: seq<Sys>, ls: seq<Label>) {
    && |ss| == |ls| + 1 && Init(ss[0])
    && forall i | 0 <= i < |ls| :: Linked(ss[i], ls[i], ss[i + 1])
  }

  /** The data of some results, one after the other. */
  function Delivered(log: seq<Result>): seq<byte> {
    if log == [] then [] else Delivered(log[..|log| - 1]) + log[|log| - 1].data
  }

  // ---- Invariants ----

  predicate Requests(s: Sys) { forall id | id in s.readers :: s.readers[id].request.Valid() }

  /** A sleeping pump faces a full buffer, and a reading pump found room. */
  predicate PumpWaitsOnlyWhenFull(s: Sys) {
    && (s.pump == Asleep ==> |s.buf| >= SESSION_BUF_CAP && !s.closed)
    && (s.pump == Reading ==> |s.buf| < SESSION_BUF_CAP)
    && (s.pump == Stopped ==> s.closed)
  }

  /** A sleeping reader has nothing to take, the session is open and its timer is still to fire. */
  predicate ReaderWaitsOnlyInVain(s: Sys, r: Reader)
    requires r.request.Valid()
  {
    r.status == Waiting ==> Available(s.buf, r.request) == 0 && !s.closed && !r.timerFired
  }

  predicate ReadersWaitOnlyInVain(s: Sys)
    requires Requests(s)
  {
    forall id | id in s.readers ::
      && ReaderWaitsOnlyInVain(s, s.readers[id])
      && (s.readers[id].timerFired ==> s.now >= s.readers[id].deadline)
  }

  predicate Inv(s: Sys) {
    && Requests(s)
    && |s.buf| < SESSION_BUF_CAP + CHUNK
    && PumpWaitsOnlyWhenFull(s)
    && ReadersWaitOnlyInVain(s)
    && s.received == Delivered(s.log) + s.buf
  }

  lemma WakeKeeps(s: Sys)
    requires Requests(s) && |s.buf| < SESSION_BUF_CAP + CHUNK && s.received == Delivered(s.log) + s.buf
    requires s.pump == Reading ==> |s.buf| < SESSION_BUF_CAP
    requires s.pump == Stopped ==> s.closed
    requires forall id | id in s.readers :: s.readers[id].timerFired ==> s.now >= s.readers[id].deadline
    ensures Inv(Wake(s))
  {
  }

  lemma TakeConserves(log: seq<Result>, buf: seq<byte>, r: Result)
    requires r.data <= buf
    ensures Delivered(log) + buf == Delivered(log + [r]) + buf[|r.data|..]
  {
    assert (log + [r])[..|log|] == log;
    assert r.data + buf[|r.data|..] == buf;
  }

  lemma ShorterBufferKeepsWaiting(s: Sys, t: Sys, id: nat, n: nat)
    requires Requests(s) && ReadersWaitOnlyInVain(s) && n <= |s.buf| && id in s.readers
    requires t == s.(readers := s.readers[id := s.readers[id].(status := Returned)], buf := s.buf[n..], log := t.log)
    ensures Requests(t) && ReadersWaitOnlyInVain(t)
  {
    hide Available;
    forall x | x in t.readers ensures ReaderWaitsOnlyInVain(t, t.readers[x]) {
      if t.readers[x].status == Waiting {
        assert ReaderWaitsOnlyInVain(s, s.readers[x]);
        RemovalKeepsWaiting(s.buf, n, s.readers[x].request);
      }
    }
  }

  lemma PassKeeps(s: Sys, id: nat)
    requires Inv(s) && id in s.readers && s.readers[id].status == Ready
    ensures Inv(AfterPass(s, id))
  {
    hide Available;
    var r := s.readers[id];
    var (p, woke) := PassOutcome(s.buf, s.closed, s.now >= r.deadline, r.request);
    if p.Done? {
      var n := |p.r.data|;
      assert p.r.data == s.buf[..n];
      TakeConserves(s.log, s.buf, p.r);
      if Available(s.buf, r.request) == 0 { NothingAvailableIsShort(s.buf, r.request); }
      var t := s.(readers := s.readers[id := r.(status := Returned)], buf := s.buf[n..],
                  log := s.log + [p.r]);
      ShorterBufferKeepsWaiting(s, t, id, n);
      if woke { WakeKeeps(t); }
    }
  }

  lemma StepKeeps(s: Sys, l: Label)
    requires Inv(s) && Enabled(s, l)
    ensures Inv(Step(s, l))
  {
    match l {
      case ReadPassStep(id) => PassKeeps(s, id);
      case PumpAppendStep(chunk, failed) =>
        assert s.received + chunk == Delivered(s.log) + (s.buf + chunk);
        WakeKeeps(s.(buf := s.buf + chunk, received := s.received + chunk, closed := s.closed || failed,
                     pump := if failed then Stopped else Checking));
      case TimerStep(id) => WakeKeeps(s.(readers := s.readers[id := s.readers[id].(timerFired := true)]));
      case CloseStep => WakeKeeps(s.(closed := true));
      case StartReadStep(id, o) =>
        var t := Step(s, l);
        forall x | x in t.readers ensures ReaderWaitsOnlyInVain(t, t.readers[x]) {
          if x != id { assert ReaderWaitsOnlyInVain(s, s.readers[x]); }
        }
      case _ =>
        var t := Step(s, l);
        forall x | x in t.readers ensures ReaderWaitsOnlyInVain(t, t.readers[x]) {
          assert ReaderWaitsOnlyInVain(s, s.readers[x]);
        }
    }
  }

  lemma RunStart(ss: seq<Sys>, ls: seq<Label>)
    requires Run(ss, ls)
    ensures |ss| == |ls| + 1 && Inv(ss[0])
  {
  }

  lemma RunLink(ss: seq<Sys>, ls: seq<Label>, i: nat)
    requires Run(ss, ls) && i < |ls|
    ensures Linked(ss[i], ls[i], ss[i + 1])
  {
    hide Linked;
  }

  lemma LinkKeeps(s: Sys, l: Label, t: Sys)
    requires Inv(s) && Linked(s, l, t)
    ensures Inv(t)
  {
    StepKeeps(s, l);
    hide Step, Inv;
  }

  lemma {:induction false} RunKeeps(ss: seq<Sys>, ls: seq<Label>, i: nat)
    requires Run(ss, ls) && i < |ss|
    ensures Inv(ss[i])
  {
    hide *;
    RunStart(ss, ls);
    if i > 0 {
      RunKeeps(ss, ls, i - 1);
      RunLink(ss, ls, i - 1);
      LinkKeeps(ss[i - 1], ls[i - 1], ss[i]);
    }
  }

  // ---- Theorems ----

  /** The data of all reads in lock order, followed by what is still buffered, is exactly the
      stream the pump received. */
  lemma StreamIsConserved(ss: seq<Sys>, ls: seq<Label>, i: nat)
    requires Run(ss, ls) && i < |ss|
    ensures Delivered(ss[i].log) + ss[i].buf == ss[i].received
  {
    hide Run;
    RunKeeps(ss, ls, i);
  }

  lemma BufferIsBounded(ss: seq<Sys>, ls: seq<Label>, i: nat)
    requires Run(ss, ls) && i < |ss|
    ensures |ss[i].buf| < SESSION_BUF_CAP + CHUNK
  {
    hide Run;
    RunKeeps(ss, ls, i);
  }

  /** No wakeup is lost: whoever sleeps has nothing to do, and a reader that sleeps past its
      deadline still has a timer about to wake it. */
  lemma NoLostWakeup(ss: seq<Sys>, ls: seq<Label>, i: nat, id: nat)
    requires Run(ss, ls) && i < |ss|
    ensures ss[i].pump == Asleep ==> |ss[i].buf| >= SESSION_BUF_CAP && !ss[i].closed
    ensures id in ss[i].readers && ss[i].readers[id].status == Waiting ==>
              && ss[i].readers[id].request.Valid()
              && Available(ss[i].buf, ss[i].readers[id].request) == 0 && !ss[i].closed
              && (ss[i].now >= ss[i].readers[id].deadline ==> Enabled(ss[i], TimerStep(id)))
  {
    hide Run;
    RunKeeps(ss, ls, i);
    if id in ss[i].readers { assert ReaderWaitsOnlyInVain(ss[i], ss[i].readers[id]); }
  }

  /** A waiting plain reader faces an empty buffer. */
  lemma PlainReadersWaitForBytes(ss: seq<Sys>, ls: seq<Label>, i: nat, id: nat)
    requires Run(ss, ls) && i < |ss| && id in ss[i].readers && ss[i].readers[id].status == Waiting
    requires !ss[i].readers[id].request.lines && ss[i].readers[id].request.delimiter == []
    ensures ss[i].buf == [] && !ss[i].closed
  {
    hide Run;
    NoLostWakeup(ss, ls, i, id);
  }

  lemma ReaderStays(s: Sys, l: Label, id: nat)
    requires Requests(s) && Enabled(s, l)
    ensures id in s.readers ==>
              && id in Step(s, l).readers && Step(s, l).readers[id].request == s.readers[id].request
              && Step(s, l).readers[id].deadline == s.readers[id].deadline
    ensures l.StartReadStep? && l.id == id ==>
              && id in Step(s, l).readers && Step(s, l).readers[id].request == Clamp(l.options)
              && Step(s, l).readers[id].deadline == s.now + ClampTimeout(l.options)
  {
    hide PassOutcome, Clamp, ClampTimeout;
  }

  lemma ReaderAcross(ss: seq<Sys>, ls: seq<Label>, i: nat, id: nat)
    requires Run(ss, ls) && i < |ls| && |ss| == |ls| + 1
    ensures id in ss[i].readers ==>
              && id in ss[i + 1].readers && ss[i + 1].readers[id].request == ss[i].readers[id].request
              && ss[i + 1].readers[id].deadline == ss[i].readers[id].deadline
    ensures ls[i].StartReadStep? && ls[i].id == id ==>
              && id in ss[i + 1].readers && ss[i + 1].readers[id].request == Clamp(ls[i].options)
              && ss[i + 1].readers[id].deadline == ss[i].now + ClampTimeout(ls[i].options)
  {
    hide Run, Step, Enabled, Requests, Clamp, ClampTimeout;
    RunLink(ss, ls, i);
    ReaderStays(ss[i], ls[i], id);
  }

  /** A reader keeps the request and the deadline it started with: its own wishes, clamped, and the
      time it started plus its timeout. */
  lemma {:induction false} ReadersKeepTheirWishes(ss: seq<Sys>, ls: seq<Label>, x: nat, i: nat, id: nat, o: Options)
    requires Run(ss, ls) && x < i <= |ls| && |ss| == |ls| + 1 && ls[x] == StartReadStep(id, o)
    ensures id in ss[i].readers && ss[i].readers[id].request == Clamp(o)
    ensures ss[i].readers[id].deadline == ss[x].now + ClampTimeout(o)
    decreases i
  {
    hide *;
    ReaderAcross(ss, ls, i - 1, id);
    if x < i - 1 { ReadersKeepTheirWishes(ss, ls, x, i - 1, id, o); }
  }

  /** Every pass of a reader that finds nothing to take in an open session sleeps until its deadline,
      and times out then, with everything buffered. */
  lemma TimesOutAtDeadline(ss: seq<Sys>, ls: seq<Label>, i: nat, id: nat)
    requires Run(ss, ls) && i < |ls| && ls[i] == ReadPassStep(id) && id in ss[i].readers
    requires ss[i].readers[id].request.Valid() && Available(ss[i].buf, ss[i].readers[id].request) == 0 && !ss[i].closed
    ensures if ss[i].now < ss[i].readers[id].deadline
            then id in ss[i + 1].readers && ss[i + 1].readers[id].status == Waiting && ss[i + 1].log == ss[i].log
            else ss[i + 1].log == ss[i].log + [Result(ss[i].buf, true, false)] && ss[i + 1].buf == []
  {
    RunLink(ss, ls, i);
    hide Run, Available;
    TimedOutRead(ss[i].buf, false, ss[i].now >= ss[i].readers[id].deadline, ss[i].readers[id].request);
  }

  /** The pump and a reader never wait for each other: a pump that sleeps for room leaves every
      reader with something to take, because no request is larger than the buffer's cap. */
  lemma NeverBothAsleep(ss: seq<Sys>, ls: seq<Label>, i: nat, id: nat)
    requires Run(ss, ls) && i < |ss| && ss[i].pump == Asleep && id in ss[i].readers
    ensures ss[i].readers[id].status != Waiting
    ensures ss[i].readers[id].request.Valid() && Available(ss[i].buf, ss[i].readers[id].request) > 0
  {
    hide Run, Available;
    RunKeeps(ss, ls, i);
    var r := ss[i].readers[id].request;
    assert ReaderWaitsOnlyInVain(ss[i], ss[i].readers[id]);
    if Available(ss[i].buf, r) == 0 { NothingAvailableIsShort(ss[i].buf, r); }
  }

  /** Once the session is closed and the pump is out of its read, the stream can only drain. */
  predicate Ended(s: Sys) { s.closed && s.pump != Reading }

  lemma EndedStep(s: Sys, l: Label)
    requires Inv(s) && Enabled(s, l) && Ended(s)
    ensures Ended(Step(s, l)) && Step(s, l).received == s.received
    ensures s.buf == [] ==> Step(s, l).buf == []
  {
    hide Available;
  }

  lemma EndedLink(ss: seq<Sys>, ls: seq<Label>, i: nat)
    requires Run(ss, ls) && i < |ls| && Ended(ss[i])
    ensures Ended(ss[i + 1]) && ss[i + 1].received == ss[i].received
    ensures ss[i].buf == [] ==> ss[i + 1].buf == []
  {
    hide Run, Step, Inv, Enabled, Ended;
    RunStart(ss, ls);
    RunKeeps(ss, ls, i);
    RunLink(ss, ls, i);
    EndedStep(ss[i], ls[i]);
  }

  /** EOF is final once the pump has left its last read: nothing is received afterwards. */
  lemma {:induction false} EofIsFinal(ss: seq<Sys>, ls: seq<Label>, i: nat, j: nat)
    requires Run(ss, ls) && i <= j < |ss| && Ended(ss[i])
    ensures Ended(ss[j]) && ss[j].received == ss[i].received
    ensures ss[i].buf == [] ==> ss[j].buf == []
    decreases j - i
  {
    hide *;
    RunStart(ss, ls);
    if i < j {
      EofIsFinal(ss, ls, i, j - 1);
      EndedLink(ss, ls, j - 1);
    }
  }

  predicate Closes(l: Label) { l.CloseStep? || (l.PumpAppendStep? && l.failed) }

  lemma ClosingNext(s: Sys, l: Label)
    requires Requests(s) && Enabled(s, l)
    ensures Step(s, l).closed <==> s.closed || Closes(l)
  {
    hide PassOutcome;
  }

  ghost predicate SomeCloses(ls: seq<Label>, n: nat) { exists x: nat :: x < n && x < |ls| && Closes(ls[x]) }

  lemma SomeClosesNext(ls: seq<Label>, n: nat)
    requires n < |ls|
    ensures SomeCloses(ls, n + 1) <==> SomeCloses(ls, n) || Closes(ls[n])
  {
    hide Closes;
  }

  /** A session is closed exactly when it was closed or its stream failed. */
  lemma {:induction false} ClosedIff(ss: seq<Sys>, ls: seq<Label>, i: nat)
    requires Run(ss, ls) && i <= |ls| < |ss|
    ensures ss[i].closed <==> SomeCloses(ls, i)
  {
    hide Run, Step, Enabled, Closes, Inv;
    RunStart(ss, ls);
    if i == 0 {
      OpenAtFirst(ss, ls);
    } else {
      ClosedIff(ss, ls, i - 1);
      RunLink(ss, ls, i - 1);
      ClosingNext(ss[i - 1], ls[i - 1]);
      SomeClosesNext(ls, i - 1);
      hide SomeCloses;
    }
  }

  lemma OpenAtFirst(ss: seq<Sys>, ls: seq<Label>)
    requires Run(ss, ls)
    ensures !ss[0].closed
  {
  }

  ghost predicate Extends(ss: seq<Sys>, ls: seq<Label>, tt: seq<Sys>, ms: seq<Label>) {
    Run(tt, ms) && |tt| == |ms| + 1 && ss <= tt && ls <= ms
  }

  /** Some continuation receives more than has been received so far. */
  ghost predicate MoreCanCome(ss: seq<Sys>, ls: seq<Label>)
    requires |ss| == |ls| + 1
  {
    exists tt: seq<Sys>, ms: seq<Label> :: Extends(ss, ls, tt, ms) && tt[|ms|].received != ss[|ls|].received
  }

  lemma ExtendRun(ss: seq<Sys>, ls: seq<Label>, l: Label) returns (tt: seq<Sys>, ms: seq<Label>)
    requires Run(ss, ls) && Requests(ss[|ls|]) && Enabled(ss[|ls|], l)
    ensures Extends(ss, ls, tt, ms) && tt == ss + [Step(ss[|ls|], l)] && ms == ls + [l]
  {
    hide Enabled, Step;
    tt, ms := ss + [Step(ss[|ls|], l)], ls + [l];
    forall i | 0 <= i < |ms| ensures Linked(tt[i], ms[i], tt[i + 1]) {
      if i < |ls| { assert Linked(ss[i], ls[i], ss[i + 1]); }
    }
  }

  lemma ReadingReceives(s: Sys)
    requires Requests(s) && s.pump == Reading
    ensures Enabled(s, PumpAppendStep([65], true)) && Step(s, PumpAppendStep([65], true)).received == s.received + [65]
  {
  }

  /** Once a session is closed, more bytes can come exactly while its pump is still in a read: an EOF
      returned then need not be the last word. */
  lemma MoreCanComeIff(ss: seq<Sys>, ls: seq<Label>)
    requires Run(ss, ls) && |ss| == |ls| + 1 && ss[|ls|].closed
    ensures MoreCanCome(ss, ls) <==> ss[|ls|].pump == Reading
  {
    hide Run, Step, Enabled, Inv;
    var s := ss[|ls|];
    if s.pump == Reading {
      KeepsRequests(ss, ls);
      ReadingReceives(s);
      var tt, ms := ExtendRun(ss, ls, PumpAppendStep([65], true));
    } else if MoreCanCome(ss, ls) {
      var tt: seq<Sys>, ms: seq<Label> :| Extends(ss, ls, tt, ms) && tt[|ms|].received != s.received;
      assert tt[|ls|] == s;
      EofIsFinal(tt, ms, |ls|, |ms|);
      assert false;
    }
  }

  lemma KeepsRequests(ss: seq<Sys>, ls: seq<Label>)
    requires Run(ss, ls) && |ss| == |ls| + 1
    ensures Requests(ss[|ls|])
  {
    hide Run;
    RunKeeps(ss, ls, |ls|);
  }

  /** A run in which that happens: the session is closed while its pump reads, a read of the drained
      buffer reports EOF, and then the pump's read returns a byte. */
  lemma BytesMayFollowEof() returns (ss: seq<Sys>, ls: seq<Label>)
    ensures Run(ss, ls) && |ss| == 6
    ensures ls == [PumpCheckStep, CloseStep, StartReadStep(0, Options(0, 0, [], false)), ReadPassStep(0),
                   PumpAppendStep([65], true)]
    ensures ss[4].log == [Result([], false, true)] && ss[4].received == []
    ensures ss[5].received == [65] && ss[5].buf == [65]
  {
    var s0 := Sys([], false, 0, Checking, map[], [], []);
    ss, ls := [s0], [];
    ss, ls := ExtendRun(ss, ls, PumpCheckStep);
    ss, ls := ExtendRun(ss, ls, CloseStep);
    var read := StartReadStep(0, Options(0, 0, [], false));
    ss, ls := ExtendRun(ss, ls, read);
    hide Run;
    var s3 := ss[3];
    assert s3.buf == [] && s3.closed && s3.pump == Reading && s3.readers[0].request == Clamp(read.options);
    assert PassOutcome([], true, false, Clamp(read.options)) == (Done(Result([], false, true)), false);
    ss, ls := ExtendRun(ss, ls, ReadPassStep(0));
    ss, ls := ExtendRun(ss, ls, PumpAppendStep([65], true));
  }

  // ---- Reset news ----

  /** What ResetsFor answers: nothing, or a count with the connection epoch that reported it. */
  datatype Lookup = Unknown | Known(count: nat, epoch: nat)

  class ResetNews {
    var seen: nat
    const epoch: nat

    /** Broker.Open: start from the current count when it can be looked up. */
    constructor (epoch: nat, atOpen: Lookup)
      ensures this.epoch == epoch && seen == Baseline(epoch, atOpen)
    {
      this.epoch := epoch;
      seen := match atOpen
              case Known(n, e) => if e == epoch then n else 0
              case Unknown => 0;
    }

    method Take(l: Lookup) returns (news: bool)
      modifies this`seen
      ensures (news, seen) == TakeNews(epoch, old(seen), l)
    {
      if l.Unknown? { return false; }
      if l.epoch != epoch { return false; }
      if l.count <= seen { return false; }
      seen := l.count;
      return true;
    }
  }

  function Baseline(epoch: nat, atOpen: Lookup): nat {
    if atOpen.Known? && atOpen.epoch == epoch then atOpen.count else 0
  }

  function TakeNews(epoch: nat, seen: nat, l: Lookup): (bool, nat) {
    if l.Known? && l.epoch == epoch && l.count > seen then (true, l.count) else (false, seen)
  }

  /** The baseline after a sequence of lookups, in the order their results were applied. */
  function SeenAfter(epoch: nat, seen: nat, ls: seq<Lookup>): nat {
    if ls == [] then seen else TakeNews(epoch, SeenAfter(epoch, seen, ls[..|ls| - 1]), ls[|ls| - 1]).1
  }

  function Reports(epoch: nat, seen: nat, ls: seq<Lookup>): nat {
    if ls == [] then 0
    else
      Reports(epoch, seen, ls[..|ls| - 1]) +
      if TakeNews(epoch, SeenAfter(epoch, seen, ls[..|ls| - 1]), ls[|ls| - 1]).0 then 1 else 0
  }

  ghost predicate CountsFrom(epoch: nat, ls: seq<Lookup>, n: nat) { Known(n, epoch) in ls }

  /** Over any lookups: the baseline is the highest count of this connection, it never falls, no
      rise stays unreported, and the reports number at most the rise. Other epochs do not matter. */
  lemma {:induction false} ResetNewsIsExact(epoch: nat, seen: nat, ls: seq<Lookup>)
    ensures var after := SeenAfter(epoch, seen, ls);
            && after >= seen
            && (after == seen || CountsFrom(epoch, ls, after))
            && (forall n: nat | CountsFrom(epoch, ls, n) :: n <= after)
            && Reports(epoch, seen, ls) <= after - seen
            && (Reports(epoch, seen, ls) == 0 <==> after == seen)
  {
    if ls != [] {
      var init, last := ls[..|ls| - 1], ls[|ls| - 1];
      ResetNewsIsExact(epoch, seen, init);
      assert ls == init + [last];
      forall n: nat | CountsFrom(epoch, ls, n) ensures n <= SeenAfter(epoch, seen, ls) {
        assert CountsFrom(epoch, init, n) || last == Known(n, epoch);
      }
      assert forall n: nat | CountsFrom(epoch, init, n) :: CountsFrom(epoch, ls, n);
      if last.Known? && last.epoch == epoch { assert CountsFrom(epoch, ls, last.count); }
    }
  }

  /** A lookup reports a reset exactly when its count exceeds every count of this connection seen
      before it and the baseline at open. */
  lemma NewsIff(epoch: nat, seen: nat, ls: seq<Lookup>, l: Lookup)
    ensures TakeNews(epoch, SeenAfter(epoch, seen, ls), l).0 <==>
            && l.Known? && l.epoch == epoch && l.count > seen
            && forall n: nat | CountsFrom(epoch, ls, n) :: n < l.count
  {
    ResetNewsIsExact(epoch, seen, ls);
  }
}
