// The monitor that records a device continuously and fans its output out to
// attached sessions (internal/agent/monitor.go).
module Monitor {
  import opened Prelude

  const HISTORY: nat := 262144
  const SUBSCRIBER: nat := 524288

  // ---- The objects ----

  /** appendBounded: whatever the three branches do, the newest max bytes remain. */
  method AppendBounded(b: seq<byte>, p: seq<byte>, max: nat) returns (r: seq<byte>)
    ensures r == LastN(b + p, max)
  {
    if |p| >= max {
      r := p[|p| - max..];
      assert LastN(b + p, max) == r;
      return;
    }
    r := b;
    if |b| + |p| > max { r := r[|b| + |p| - max..]; }
    r := r + p;
  }

  /** What a read of a subscriber comes back with; Blocks stands for waiting on its condition. */
  datatype ReadOutcome = Data(bytes: seq<byte>) | Eof | Blocks

  function ReadOf(buf: seq<byte>, closed: bool, n: nat): ReadOutcome {
    if buf == [] then (if closed then Eof else Blocks) else Data(buf[..Min(n, |buf|)])
  }

  class Subscriber {
    var buf: seq<byte>
    var closed: bool

    constructor ()
      ensures buf == [] && !closed
    {
      buf, closed := [], false;
    }

    method Push(p: seq<byte>)
      modifies this
      ensures closed == old(closed)
      ensures buf == if closed then old(buf) else LastN(old(buf) + p, SUBSCRIBER)
    {
      if !closed { buf := AppendBounded(buf, p, SUBSCRIBER); }
    }

    method Close()
      modifies this
      ensures closed && buf == old(buf)
    {
      closed := true;
    }

    method Read(n: nat) returns (r: ReadOutcome)
      modifies this
      ensures r == ReadOf(old(buf), closed, n) && closed == old(closed)
      ensures buf == if r.Data? then old(buf)[|r.bytes|..] else old(buf)
    {
      if buf == [] { return if closed then Eof else Blocks; }
      var k := Min(n, |buf|);
      r := Data(buf[..k]);
      buf := buf[k..];
    }
  }

  class Recorder {
    var history: seq<byte>
    var subs: map<nat, Subscriber>
    var nextId: nat
    var closed: bool

    ghost predicate Valid()
      reads this
    {
      && |history| <= HISTORY
      && (forall i | i in subs :: i < nextId)
      && (forall i, j | i in subs && j in subs && i != j :: subs[i] != subs[j])
    }

    constructor ()
      ensures Valid() && history == [] && subs == map[] && !closed
    {
      history, subs, nextId, closed := [], map[], 0, false;
    }

    /** The pump's locked section: record, then hand the bytes to every attached session. */
    method Record(chunk: seq<byte>)
      requires Valid()
      modifies this`history, subs.Values
      ensures Valid() && history == LastN(old(history) + chunk, HISTORY)
      ensures forall i | i in subs :: subs[i].closed == old(subs[i].closed)
      ensures forall i | i in subs ::
                subs[i].buf == if subs[i].closed then old(subs[i].buf) else LastN(old(subs[i].buf) + chunk, SUBSCRIBER)
    {
      history := AppendBounded(history, chunk, HISTORY);
      var todo := subs.Keys;
      while todo != {}
        invariant todo <= subs.Keys && history == LastN(old(history) + chunk, HISTORY)
        invariant forall i | i in subs :: subs[i].closed == old(subs[i].closed)
        invariant forall i | i in todo :: subs[i].buf == old(subs[i].buf)
        invariant forall i | i in subs && i !in todo ::
                    subs[i].buf == if subs[i].closed then old(subs[i].buf)
                                   else LastN(old(subs[i].buf) + chunk, SUBSCRIBER)
        decreases todo
      {
        var i :| i in todo;
        subs[i].Push(chunk);
        todo := todo - {i};
      }
    }

    /** Ends every attached session; shared by the pump's error path and Close. */
    method CloseSubscribers()
      requires Valid()
      modifies this`closed, subs.Values
      ensures Valid() && closed
      ensures forall i | i in subs :: subs[i].closed && subs[i].buf == old(subs[i].buf)
    {
      closed := true;
      var todo := subs.Keys;
      while todo != {}
        invariant todo <= subs.Keys && closed
        invariant forall i | i in subs :: subs[i].buf == old(subs[i].buf)
        invariant forall i | i in subs && i !in todo :: subs[i].closed
        decreases todo
      {
        var i :| i in todo;
        subs[i].Close();
        todo := todo - {i};
      }
    }

    method Attach(withHistory: bool) returns (s: Subscriber)
      requires Valid()
      modifies this`subs, this`nextId
      ensures Valid() && fresh(s) && s.closed == closed
      ensures s.buf == if withHistory then history else []
      ensures subs == if closed then old(subs) else old(subs)[old(nextId) := s]
      ensures nextId == old(nextId) + 1
    {
      s := new Subscriber();
      var id := nextId;
      nextId := nextId + 1;
      if withHistory && |history| > 0 {
        s.Push(history);
        assert [] + history == history;
      }
      if closed {
        s.Close();
        return;
      }
      subs := subs[id := s];
    }

    method Detach(id: nat)
      requires Valid()
      modifies this`subs
      ensures Valid() && subs == old(subs) - {id}
    {
      subs := subs - {id};
    }

    /** Close reports whether it went on to close the port; a monitor already closed by its
        pump's read error returns early. */
    method Close() returns (closesPort: bool)
      requires Valid()
      modifies this`closed, subs.Values
      ensures Valid() && closed && (closesPort <==> !old(closed))
      ensures !old(closed) ==> forall i | i in subs :: subs[i].closed && subs[i].buf == old(subs[i].buf)
    {
      if closed { return false; }
      CloseSubscribers();
      return true;
    }
  }

  // ---- Every schedule of port reads, attaches, session reads and closes ----

  /** Bytes handed to a session, with their position in the device's output. */
  datatype Delivery = Delivery(at: nat, bytes: seq<byte>)

  /** start..end is the stretch of output this session is about: from the history replayed at
      attach to the last byte pushed while it was open. dropped counts bytes lost to overflow. */
  datatype Sub = Sub(buf: seq<byte>, closed: bool, start: nat, end: nat, dropped: nat, log: seq<Delivery>)

  /** total is everything the device has ever said. */
  datatype Sys = Sys(total: seq<byte>, history: seq<byte>, closed: bool, subs: map<nat, Sub>, attached: set<nat>)

  datatype Label =
    | PumpStep(chunk: seq<byte>)
    | PumpFailStep
    | AttachStep(id: nat, withHistory: bool)
    | ReadStep(id: nat, n: nat)
    | CloseSubStep(id: nat)
    | DetachStep(id: nat)
    | CloseStep

  predicate Enabled(s: Sys, l: Label) {
    match l
    case AttachStep(id, _) => id !in s.subs
    case ReadStep(id, _) => id in s.subs
    case CloseSubStep(id) => id in s.subs
    case DetachStep(id) => id in s.subs && s.subs[id].closed
    case _ => true
  }

  function PushSub(b: Sub, p: seq<byte>): Sub {
    if b.closed then b
    else
      var next := LastN(b.buf + p, SUBSCRIBER);
      b.(buf := next, end := b.end + |p|, dropped := b.dropped + (|b.buf| + |p| - |next|))
  }

  function ReadSub(b: Sub, n: nat): Sub {
    match ReadOf(b.buf, b.closed, n)
    case Data(bytes) =>
      b.(buf := b.buf[Min(|bytes|, |b.buf|)..], log := b.log + [Delivery(Max(b.end - |b.buf|, 0), bytes)])
    case _ => b
  }

  function CloseSubs(subs: map<nat, Sub>, which: set<nat>): map<nat, Sub> {
    map i | i in subs :: if i in which then subs[i].(closed := true) else subs[i]
  }

  function NewSub(s: Sys, withHistory: bool): Sub {
    var buf := if withHistory then LastN(s.history, SUBSCRIBER) else [];
    Sub(buf, s.closed, Max(|s.total| - |buf|, 0), |s.total|, 0, [])
  }

  function Step(s: Sys, l: Label): Sys
    requires Enabled(s, l)
  {
    match l
    case PumpStep(chunk) =>
      s.(total := s.total + chunk, history := LastN(s.history + chunk, HISTORY),
         subs := map i | i in s.subs :: if i in s.attached then PushSub(s.subs[i], chunk) else s.subs[i])
    case PumpFailStep => s.(closed := true, subs := CloseSubs(s.subs, s.attached))
    case AttachStep(id, withHistory) =>
      s.(subs := s.subs[id := NewSub(s, withHistory)],
         attached := if s.closed then s.attached else s.attached + {id})
    case ReadStep(id, n) => s.(subs := s.subs[id := ReadSub(s.subs[id], n)])
    case CloseSubStep(id) => s.(subs := CloseSubs(s.subs, {id}))
    case DetachStep(id) => s.(attached := s.attached - {id})
    case CloseStep => if s.closed then s else s.(closed := true, subs := CloseSubs(s.subs, s.attached))
  }

  predicate Init(s: Sys) { s == Sys([], [], false, map[], {}) }

  ghost predicate Linked(s: Sys, l: Label, t: Sys) { Enabled(s, l) && t == Step(s, l) }

  ghost predicate Run(ss: seq<Sys>, ls: seq<Label>) {
    && |ss| == |ls| + 1 && Init(ss[0])
    && forall i | 0 <= i < |ls| :: Linked(ss[i], ls[i], ss[i + 1])
  }

  /** Every delivery is the stated stretch of the output, inside [start, upto). */
  predicate Genuine(total: seq<byte>, d: Delivery, start: nat, upto: nat) {
    start <= d.at && d.at + |d.bytes| <= upto <= |total| && d.bytes == total[d.at..d.at + |d.bytes|]
  }

  /** Deliveries in order, without overlap, from start up to position upto; gap is what they skip. */
  predicate InOrder(total: seq<byte>, log: seq<Delivery>, start: nat, upto: nat, gap: nat)
    decreases |log|
  {
    if log == [] then start + gap == upto
    else
      var d := log[|log| - 1];
      && Genuine(total, d, start, upto)
      && upto - (d.at + |d.bytes|) <= gap
      && InOrder(total, log[..|log| - 1], start, d.at, gap - (upto - (d.at + |d.bytes|)))
  }

  /** A session agrees with the unbounded output it abbreviates. */
  predicate Faithful(total: seq<byte>, b: Sub) {
    && b.start <= b.end <= |total| && |b.buf| <= b.end - b.start && |b.buf| <= SUBSCRIBER
    && b.buf == total[b.end - |b.buf|..b.end]
    && InOrder(total, b.log, b.start, b.end - |b.buf|, b.dropped)
  }

  predicate Inv(s: Sys) {
    && s.history == LastN(s.total, HISTORY)
    && (forall i | i in s.subs :: Faithful(s.total, s.subs[i]))
    && (forall i | i in s.subs && !s.subs[i].closed :: i in s.attached && s.subs[i].end == |s.total|)
  }

  lemma {:induction false} InOrderGrows(
      total: seq<byte>, more: seq<byte>, log: seq<Delivery>, start: nat, upto: nat, gap: nat)
    requires InOrder(total, log, start, upto, gap) && upto <= |total|
    ensures InOrder(total + more, log, start, upto, gap)
    decreases |log|
  {
    if log != [] {
      var d := log[|log| - 1];
      assert (total + more)[d.at..d.at + |d.bytes|] == total[d.at..d.at + |d.bytes|];
      InOrderGrows(total, more, log[..|log| - 1], start, d.at, gap - (upto - (d.at + |d.bytes|)));
    }
  }

  lemma InOrderSkips(total: seq<byte>, log: seq<Delivery>, start: nat, upto: nat, gap: nat, skip: nat)
    requires InOrder(total, log, start, upto, gap) && upto + skip <= |total|
    ensures InOrder(total, log, start, upto + skip, gap + skip)
  {
  }

  lemma FaithfulGrows(total: seq<byte>, more: seq<byte>, b: Sub)
    requires Faithful(total, b)
    ensures Faithful(total + more, b)
  {
    InOrderGrows(total, more, b.log, b.start, b.end - |b.buf|, b.dropped);
    assert (total + more)[b.end - |b.buf|..b.end] == total[b.end - |b.buf|..b.end];
  }

  lemma SuffixAfterPush(total: seq<byte>, p: seq<byte>, size: nat)
    requires size <= |total|
    ensures var kept := LastN(total[|total| - size..] + p, SUBSCRIBER);
            |kept| <= size + |p| && kept == (total + p)[|total| + |p| - |kept|..]
  {
    assert total[|total| - size..] + p == (total + p)[|total| - size..];
  }

  lemma PushShape(total: seq<byte>, p: seq<byte>, b: Sub)
    requires b.end == |total| && |b.buf| <= |total| && b.buf == total[b.end - |b.buf|..b.end]
    ensures b.closed ==> PushSub(b, p) == b
    ensures !b.closed ==>
              var c := PushSub(b, p);
              && c.start == b.start && c.end == |total + p| && c.log == b.log && |c.buf| <= SUBSCRIBER
              && |c.buf| <= |b.buf| + |p| && c.dropped == b.dropped + (|b.buf| + |p| - |c.buf|)
              && c.buf == (total + p)[c.end - |c.buf|..c.end]
  {
    SuffixAfterPush(total, p, |b.buf|);
    assert b.buf == total[|total| - |b.buf|..];
  }

  lemma PushKeeps(total: seq<byte>, p: seq<byte>, b: Sub)
    requires Faithful(total, b) && b.end == |total|
    ensures Faithful(total + p, PushSub(b, p))
  {
    hide InOrder, LastN, PushSub;
    FaithfulGrows(total, p, b);
    PushShape(total, p, b);
    if !b.closed {
      InOrderSkips(total + p, b.log, b.start, b.end - |b.buf|, b.dropped, |b.buf| + |p| - |PushSub(b, p).buf|);
    }
  }

  lemma InOrderSnoc(total: seq<byte>, log: seq<Delivery>, d: Delivery, start: nat, gap: nat)
    requires InOrder(total, log, start, d.at, gap) && Genuine(total, d, start, d.at + |d.bytes|)
    ensures InOrder(total, log + [d], start, d.at + |d.bytes|, gap)
  {
    assert (log + [d])[..|log|] == log;
  }

  lemma ReadKeeps(total: seq<byte>, b: Sub, n: nat)
    requires Faithful(total, b)
    ensures Faithful(total, ReadSub(b, n))
  {
    hide InOrder;
    if b.buf != [] {
      var k, at := Min(n, |b.buf|), b.end - |b.buf|;
      assert b.buf[..k] == total[at..at + k];
      assert b.buf[k..] == total[at + k..b.end];
      InOrderSnoc(total, b.log, Delivery(at, b.buf[..k]), b.start, b.dropped);
    }
  }

  lemma AttachKeeps(s: Sys, withHistory: bool)
    requires Inv(s)
    ensures Faithful(s.total, NewSub(s, withHistory))
  {
  }

  lemma PumpKeeps(s: Sys, chunk: seq<byte>)
    requires Inv(s)
    ensures Inv(Step(s, PumpStep(chunk)))
  {
    var t := Step(s, PumpStep(chunk));
    LastNAppend(s.total, chunk, HISTORY);
    hide LastN;
    forall i | i in t.subs ensures Faithful(t.total, t.subs[i]) {
      hide Faithful;
      assert Faithful(s.total, s.subs[i]);
      if i in s.attached && !s.subs[i].closed {
        PushKeeps(s.total, chunk, s.subs[i]);
      } else {
        FaithfulGrows(s.total, chunk, s.subs[i]);
      }
    }
    hide Faithful;
  }

  lemma ClosingKeeps(total: seq<byte>, b: Sub)
    requires Faithful(total, b)
    ensures Faithful(total, b.(closed := true))
  {
  }

  lemma StepKeeps(s: Sys, l: Label)
    requires Inv(s) && Enabled(s, l)
    ensures Inv(Step(s, l))
  {
    if l.PumpStep? {
      hide Inv, Step;
      PumpKeeps(s, l.chunk);
    } else if l.AttachStep? {
      AttachKeeps(s, l.withHistory);
      hide Faithful, NewSub;
      NewSubState(s, l.withHistory);
    } else if l.ReadStep? {
      ReadKeeps(s.total, s.subs[l.id], l.n);
      hide Faithful;
    } else {
      hide *;
      EndingKeeps(s, l);
    }
  }

  lemma EndingKeeps(s: Sys, l: Label)
    requires Inv(s) && Enabled(s, l) && !l.PumpStep? && !l.AttachStep? && !l.ReadStep?
    ensures Inv(Step(s, l))
  {
    forall i | i in s.subs ensures Faithful(s.total, s.subs[i].(closed := true)) {
      ClosingKeeps(s.total, s.subs[i]);
    }
    hide Faithful;
  }

  lemma NewSubState(s: Sys, withHistory: bool)
    ensures NewSub(s, withHistory).closed == s.closed && NewSub(s, withHistory).end == |s.total|
  {
  }

  lemma RunStart(ss: seq<Sys>, ls: seq<Label>)
    requires Run(ss, ls)
    ensures |ss| == |ls| + 1 && Inv(ss[0])
  {
  }

  lemma RunLink(ss: seq<Sys>, ls: seq<Label>, i: nat)
    requires Run(ss, ls) && i < |ls|
    ensures Enabled(ss[i], ls[i]) && ss[i + 1] == Step(ss[i], ls[i])
  {
    assert Linked(ss[i], ls[i], ss[i + 1]);
    hide Step;
  }

  lemma {:induction false} RunKeeps(ss: seq<Sys>, ls: seq<Label>, i: nat)
    requires Run(ss, ls) && i < |ss|
    ensures Inv(ss[i])
  {
    hide *;
    RunStart(ss, ls);
    if i > 0 {
      RunKeeps(ss, ls, i - 1);
      RunLink(ss, ls, i - 1);
      StepKeeps(ss[i - 1], ls[i - 1]);
    }
  }

  // ---- Theorems ----

  /** The history is exactly the last HISTORY bytes of everything the device has said. */
  lemma HistoryIsRecent(ss: seq<Sys>, ls: seq<Label>, i: nat)
    requires Run(ss, ls) && i < |ss|
    ensures ss[i].history == LastN(ss[i].total, HISTORY)
  {
    hide Run;
    RunKeeps(ss, ls, i);
  }

  function Bytes(log: seq<Delivery>): seq<byte> {
    if log == [] then [] else Bytes(log[..|log| - 1]) + log[|log| - 1].bytes
  }

  lemma {:induction false} GaplessIsWhole(total: seq<byte>, log: seq<Delivery>, start: nat, upto: nat)
    requires InOrder(total, log, start, upto, 0) && upto <= |total|
    ensures start <= upto && Bytes(log) == total[start..upto]
    decreases |log|
  {
    if log != [] {
      var d := log[|log| - 1];
      GaplessIsWhole(total, log[..|log| - 1], start, d.at);
      assert total[start..d.at] + total[d.at..upto] == total[start..upto];
    }
  }

  lemma {:induction false} SizesAddUp(total: seq<byte>, log: seq<Delivery>, start: nat, upto: nat, gap: nat)
    requires InOrder(total, log, start, upto, gap)
    ensures start + |Bytes(log)| + gap == upto
    decreases |log|
  {
    if log != [] {
      var d := log[|log| - 1];
      SizesAddUp(total, log[..|log| - 1], start, d.at, gap - (upto - (d.at + |d.bytes|)));
    }
  }

  /** Until its buffer overflows, a session has been given, or still has buffered, exactly the
      output from its replayed history on, with no gap and no duplicate. */
  lemma NothingLostWithoutOverflow(ss: seq<Sys>, ls: seq<Label>, i: nat, id: nat)
    requires Run(ss, ls) && i < |ss| && id in ss[i].subs && ss[i].subs[id].dropped == 0
    ensures var b, total := ss[i].subs[id], ss[i].total;
            && b.start <= b.end <= |total| && Bytes(b.log) + b.buf == total[b.start..b.end]
            && (!b.closed ==> b.end == |total|)
  {
    hide Run;
    RunKeeps(ss, ls, i);
    var b, total := ss[i].subs[id], ss[i].total;
    assert Faithful(total, b);
    hide Inv;
    GaplessIsWhole(total, b.log, b.start, b.end - |b.buf|);
    assert total[b.start..b.end - |b.buf|] + total[b.end - |b.buf|..b.end] == total[b.start..b.end];
  }

  /** With overflow, deliveries are still genuine, in order and disjoint, what is buffered is the
      newest stretch, and delivered, dropped and buffered bytes add up to the whole. */
  lemma OnlyOldestUnreadBytesAreDropped(ss: seq<Sys>, ls: seq<Label>, i: nat, id: nat)
    requires Run(ss, ls) && i < |ss| && id in ss[i].subs
    ensures var b, total := ss[i].subs[id], ss[i].total;
            && Faithful(total, b)
            && b.start + |Bytes(b.log)| + b.dropped + |b.buf| == b.end
  {
    hide Run;
    RunKeeps(ss, ls, i);
    var b, total := ss[i].subs[id], ss[i].total;
    assert Faithful(total, b);
    hide Inv;
    SizesAddUp(total, b.log, b.start, b.end - |b.buf|, b.dropped);
  }

  /** A session that reads EOF has been given everything pushed before it closed, except what
      overflow had already dropped. */
  lemma EofComesAfterEverything(ss: seq<Sys>, ls: seq<Label>, i: nat, id: nat, n: nat)
    requires Run(ss, ls) && i < |ss| && id in ss[i].subs
    requires ReadOf(ss[i].subs[id].buf, ss[i].subs[id].closed, n) == Eof
    ensures ss[i].subs[id].closed
    ensures var b := ss[i].subs[id]; b.start + |Bytes(b.log)| + b.dropped == b.end
  {
    OnlyOldestUnreadBytesAreDropped(ss, ls, i, id);
  }

  /** A drop happens exactly when a push finds less room than it needs, and drops the shortfall. */
  lemma DropIff(b: Sub, p: seq<byte>)
    requires !b.closed && |b.buf| <= SUBSCRIBER
    ensures PushSub(b, p).dropped == b.dropped + Max(0, |b.buf| + |p| - SUBSCRIBER)
  {
  }

  /** Closing a session, by itself, its monitor or a read error, keeps every buffered byte and
      ends its stretch of output where it stands. */
  lemma ClosedSessionsOnlyDrain(ss: seq<Sys>, ls: seq<Label>, i: nat, id: nat)
    requires Run(ss, ls) && i < |ls| && id in ss[i].subs && ss[i].subs[id].closed
    ensures id in ss[i + 1].subs
    ensures var b, c := ss[i].subs[id], ss[i + 1].subs[id];
            c.closed && c.start == b.start && c.end == b.end && c.dropped == b.dropped
  {
    RunLink(ss, ls, i);
    hide Run, Linked;
  }

  /** A read that asks for bytes gets some whenever any are buffered, at most as many as it asks for and
      the oldest first; it waits exactly when nothing is buffered and the session is open. */
  lemma ReadsMakeProgress(buf: seq<byte>, closed: bool, n: nat)
    ensures var r := ReadOf(buf, closed, n);
            && (r.Data? <==> buf != []) && (r == Eof <==> buf == [] && closed)
            && (r.Data? ==> r.bytes <= buf && |r.bytes| <= n && (|r.bytes| == n || r.bytes == buf))
            && (r.Data? && n > 0 ==> r.bytes != [])
  {
  }

  predicate Closes(l: Label) { l.PumpFailStep? || l.CloseStep? }

  ghost predicate SomeCloses(ls: seq<Label>, n: nat) { exists x: nat :: x < n && x < |ls| && Closes(ls[x]) }

  ghost predicate ClosedItself(ls: seq<Label>, n: nat, id: nat) {
    exists x: nat :: x < n && x < |ls| && ls[x] == CloseSubStep(id)
  }

  lemma ClosingNext(s: Sys, l: Label, id: nat)
    requires Inv(s) && Enabled(s, l) && (s.closed ==> forall i | i in s.subs :: s.subs[i].closed)
    requires forall i | i in s.attached :: i in s.subs
    ensures var t := Step(s, l);
            && (t.closed <==> s.closed || Closes(l))
            && (t.closed ==> forall i | i in t.subs :: t.subs[i].closed)
            && (forall i | i in t.attached :: i in t.subs)
            && (id in s.subs ==>
                  && id in t.subs
                  && (t.subs[id].closed <==> s.subs[id].closed || t.closed || l == CloseSubStep(id)))
            && (id in t.subs && id !in s.subs ==> (t.subs[id].closed <==> t.closed))
  {
    hide Faithful, LastN;
  }

  /** A monitor is closed exactly when it was closed or its port failed; and a session exactly when its
      monitor is, or it was closed itself: no session outlives its monitor, and none ends before. */
  lemma {:induction false} SessionsEndWithTheirMonitor(ss: seq<Sys>, ls: seq<Label>, i: nat, id: nat)
    requires Run(ss, ls) && i <= |ls| < |ss|
    ensures ss[i].closed <==> SomeCloses(ls, i)
    ensures ss[i].closed ==> forall x | x in ss[i].subs :: ss[i].subs[x].closed
    ensures forall x | x in ss[i].attached :: x in ss[i].subs
    ensures id in ss[i].subs ==> (ss[i].subs[id].closed <==> ss[i].closed || ClosedItself(ls, i, id))
    ensures id !in ss[i].subs ==> !ClosedItself(ls, i, id)
  {
    hide Run, Inv, Step, Enabled, Closes;
    RunStart(ss, ls);
    if i == 0 {
      NobodyYet(ss, ls);
    } else {
      SessionsEndWithTheirMonitor(ss, ls, i - 1, id);
      RunKeeps(ss, ls, i - 1);
      RunLink(ss, ls, i - 1);
      ClosingNext(ss[i - 1], ls[i - 1], id);
      HistoryNext(ls, i - 1, id);
      CloseNeedsASession(ss[i - 1], ls[i - 1], id);
      hide SomeCloses, ClosedItself;
    }
  }

  lemma NobodyYet(ss: seq<Sys>, ls: seq<Label>)
    requires Run(ss, ls)
    ensures ss[0].subs == map[] && ss[0].attached == {} && !ss[0].closed
  {
  }

  lemma HistoryNext(ls: seq<Label>, n: nat, id: nat)
    requires n < |ls|
    ensures SomeCloses(ls, n + 1) <==> SomeCloses(ls, n) || Closes(ls[n])
    ensures ClosedItself(ls, n + 1, id) <==> ClosedItself(ls, n, id) || ls[n] == CloseSubStep(id)
  {
    hide Closes;
  }

  lemma CloseNeedsASession(s: Sys, l: Label, id: nat)
    requires Enabled(s, l)
    ensures l == CloseSubStep(id) ==> id in s.subs
  {
  }

  lemma StartNext(s: Sys, l: Label, id: nat)
    requires Enabled(s, l)
    ensures id in s.subs ==> id in Step(s, l).subs && Step(s, l).subs[id].start == s.subs[id].start
  {
    hide LastN, ReadOf;
  }

  lemma AttachedStart(s: Sys, id: nat, withHistory: bool)
    requires Inv(s) && id !in s.subs
    ensures var t := Step(s, AttachStep(id, withHistory));
            id in t.subs && t.subs[id].start == |s.total| - if withHistory then Min(|s.total|, HISTORY) else 0
  {
  }

  /** A session attached with the history starts that far back, with all of it; one attached without
      starts at the present. */
  lemma {:induction false} SessionsStartWithTheHistory(
      ss: seq<Sys>, ls: seq<Label>, x: nat, i: nat, id: nat, withHistory: bool)
    requires Run(ss, ls) && x < i <= |ls| < |ss| && ls[x] == AttachStep(id, withHistory)
    ensures id in ss[i].subs
    ensures ss[i].subs[id].start == |ss[x].total| - if withHistory then Min(|ss[x].total|, HISTORY) else 0
    decreases i
  {
    hide Run, Inv, Step;
    RunLink(ss, ls, i - 1);
    if x == i - 1 {
      RunKeeps(ss, ls, x);
      AttachedStart(ss[x], id, withHistory);
    } else {
      SessionsStartWithTheHistory(ss, ls, x, i - 1, id, withHistory);
      StartNext(ss[i - 1], ls[i - 1], id);
    }
  }
}
